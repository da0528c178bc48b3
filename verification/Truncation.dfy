// Snapshots that end too early. The data of a record is read without a check, so
// that one cut inside the data of its very last record is loaded all the same.
module Truncation {
  import opened Options
  import opened TagServices
  import opened Fragments
  import opened Persistence
  import opened Sequences

  // From p on, b is a beginning of x and ends before x does.
  predicate Cut(b: seq<bv8>, p: nat, x: seq<bv8>) { p <= |b| < p + |x| && b[p..] == x[..|b| - p] }

  lemma CutSplit(b: seq<bv8>, p: nat, x: seq<bv8>, y: seq<bv8>)
    requires Cut(b, p, x + y)
    ensures if |b| < p + |x| then Cut(b, p, x) else Here(b, p, x) && Cut(b, p + |x|, y)
  {
    var z, n := x + y, |b| - p;
    if n < |x| {
      assert z[..n] == x[..n];
    } else {
      assert b[p..p + |x|] == b[p..][..|x|] == z[..n][..|x|] == x;
      assert b[p + |x|..] == b[p..][|x|..] == z[..n][|x|..] == y[..n - |x|];
    }
  }

  lemma CutBounds(b: seq<bv8>, p: nat, x: seq<bv8>)
    requires Cut(b, p, x)
    ensures p <= |b| < p + |x|
  {}

  // ---- One record ----

  lemma StringCut(b: seq<bv8>, p: nat, s: Name)
    requires NameOk(s) && Cut(b, p, StringBytes(s))
    ensures ReadString(b, p).None?
  {
    hide U16, Out16, Cut, Here;
    CutBounds(b, p, StringBytes(s));
    CutSplit(b, p, Out16(|s|), s);
    if |b| >= p + 2 {
      HereIs(b, p, Out16(|s|));
      U16Out16(b, p, |s|);
    }
  }

  lemma HereIs(b: seq<bv8>, p: nat, x: seq<bv8>)
    requires Here(b, p, x)
    ensures p + |x| <= |b| && b[p..p + |x|] == x
  {}

  lemma NothingBehind(b: seq<bv8>, p: nat)
    requires p > |b|
    ensures ReadString(b, p).None? && ReadRecord(b, p).None?
  {}

  // A record whose last bytes of data are gone.
  function Wiped(r: Record, missing: nat): Record
    requires missing <= |r.data|
  {
    r.(data := r.data[..|r.data| - missing] + Zeros8(missing))
  }

  lemma RecordSize(r: Record)
    ensures |RecordBytes(r)| == |r.name| + |r.data| + 8
  {
    hide Out16, Out32;
  }

  lemma RecordCut(b: seq<bv8>, p: nat, r: Record)
    requires RecordOk(r) && Cut(b, p, RecordBytes(r))
    ensures var missing := p + |RecordBytes(r)| - |b|;
      ReadRecord(b, p) == if missing > |r.data| then None else Some((Wiped(r, missing), |b| + 1))
  {
    hide U16, U32, Out16, Out32, StringBytes, ReadString, Cut, Here, Zeros8;
    var head, typ, size := StringBytes(r.name), Out16(r.tagType), Out32(|r.data|);
    RecordSize(r);
    StringSize(r.name);
    CutBounds(b, p, RecordBytes(r));
    CutSplit(b, p, head, typ + (size + r.data));
    if |b| < p + |head| {
      StringCut(b, p, r.name);
    } else {
      var q := p + |head|;
      StringRead(b, p, r.name);
      if q + 6 <= |b| {
        CutSplit(b, q, typ, size + r.data);
        CutSplit(b, q + 2, size, r.data);
        HereIs(b, q, typ);
        HereIs(b, q + 2, size);
        U16Out16(b, q, r.tagType);
        U32Out32(b, q + 2, |r.data|);
        CutIs(b, q + 6, r.data);
      }
    }
  }

  lemma StringSize(s: Name)
    ensures |StringBytes(s)| == |s| + 2
  {}

  lemma CutIs(b: seq<bv8>, p: nat, x: seq<bv8>)
    requires Cut(b, p, x)
    ensures p <= |b| < p + |x| && b[p..] == x[..|x| - (p + |x| - |b|)]
  {}

  // ---- The records of a scope ----

  function LastData(rs: seq<Record>): nat { if rs == [] then 0 else |rs[|rs| - 1].data| }

  function WipedLast(rs: seq<Record>, missing: nat): (r: seq<Record>)
    requires rs != [] && missing <= LastData(rs)
    ensures |r| == |rs|
  {
    rs[..|rs| - 1] + [Wiped(rs[|rs| - 1], missing)]
  }

  lemma {:induction false} LastFits(rs: seq<Record>)
    ensures rs != [] ==> |RecordsBytes(rs)| >= LastData(rs) + 8
    decreases |rs|
  {
    hide RecordBytes;
    if rs != [] {
      RecordSize(rs[0]);
      LastFits(rs[1..]);
    }
  }

  lemma WipedRest(rs: seq<Record>, missing: nat)
    requires |rs| > 1 && missing <= LastData(rs)
    ensures LastData(rs[1..]) == LastData(rs)
    ensures WipedLast(rs, missing)[0] == rs[0] && WipedLast(rs, missing)[1..] == WipedLast(rs[1..], missing)
  {}

  lemma {:induction false} RecordsCut(b: seq<bv8>, p: nat, rs: seq<Record>, root: bool, m: Scope, t: Tally)
    requires (forall i :: 0 <= i < |rs| ==> RecordOk(rs[i])) && Cut(b, p, RecordsBytes(rs))
    ensures rs != []
    ensures var missing := p + |RecordsBytes(rs)| - |b|;
      RestoreRecords(b, p, |rs|, root, m, t) ==
      if missing > LastData(rs) then None
      else
        var (after, u) := RestoreAll(root, m, WipedLast(rs, missing), t);
        Some(Progress(after, u, |b| + 1))
    decreases |rs|
  {
    hide RecordBytes, ReadRecord, Cut, Here, Persistence.Fits, Restore, Count, KeyOf, Wiped;
    CutBounds(b, p, RecordsBytes(rs));
    var r, rest := rs[0], rs[1..];
    var missing := p + |RecordsBytes(rs)| - |b|;
    CutSplit(b, p, RecordBytes(r), RecordsBytes(rest));
    LastFits(rest);
    RecordSize(r);
    if |b| < p + |RecordBytes(r)| {
      RecordCut(b, p, r);
      NothingBehind(b, |b| + 1);
    } else {
      RecordRead(b, p, r);
      var key := KeyOf(root, r.name);
      RecordsCut(b, p + |RecordBytes(r)|, rest, root, Restore(m, key, r), Count(t, Persistence.Fits(m, key, r)));
      if missing <= LastData(rs) { WipedRest(rs, missing); }
    }
  }

  lemma {:induction false} SkippedCut(b: seq<bv8>, p: nat, rs: seq<Record>, t: Tally)
    requires (forall i :: 0 <= i < |rs| ==> RecordOk(rs[i])) && Cut(b, p, RecordsBytes(rs))
    ensures rs != []
    ensures var missing := p + |RecordsBytes(rs)| - |b|;
      SkipRecords(b, p, |rs|, t) ==
      if missing > LastData(rs) then None
      else Some(Progress(map[], t.(skipped := t.skipped + |rs|), |b| + 1))
    decreases |rs|
  {
    hide RecordBytes, ReadRecord, Cut, Here, Wiped;
    CutBounds(b, p, RecordsBytes(rs));
    var r, rest := rs[0], rs[1..];
    CutSplit(b, p, RecordBytes(r), RecordsBytes(rest));
    LastFits(rest);
    RecordSize(r);
    if |b| < p + |RecordBytes(r)| {
      RecordCut(b, p, r);
      NothingBehind(b, |b| + 1);
    } else {
      RecordRead(b, p, r);
      SkippedCut(b, p + |RecordBytes(r)|, rest, Count(t, false));
    }
  }

  // ---- The programs ----

  function WipedProgram(p: Program, missing: nat): Program
    requires p.tags != [] && missing <= LastData(p.tags)
  {
    p.(tags := WipedLast(p.tags, missing))
  }

  lemma ProgramSize(p: Program)
    ensures |ProgramBytes(p)| == |p.name| + 6 + |RecordsBytes(p.tags)|
  {
    hide RecordsBytes, Out32, Out16;
  }

  lemma ProgramCut(b: seq<bv8>, at: nat, p: Program, db: Db, t: Tally)
    requires ProgramOk(p) && Cut(b, at, ProgramBytes(p))
    ensures var missing := at + |ProgramBytes(p)| - |b|;
      LoadProgram(b, at, db, t) ==
      if p.tags == [] || missing > LastData(p.tags) then None
      else Some((RestoreProgram(db, WipedProgram(p, missing), t), |b| + 1))
  {
    hide StringBytes, RecordsBytes, ReadString, RestoreRecords, SkipRecords, RestoreAll, RecordOk, Cut, Here;
    hide U32, Out32, LowerName, WipedLast, LastData;
    ProgramSize(p);
    StringSize(p.name);
    LastFits(p.tags);
    CutBounds(b, at, ProgramBytes(p));
    CutSplit(b, at, StringBytes(p.name), Counted(p.tags));
    if |b| < at + |StringBytes(p.name)| {
      StringCut(b, at, p.name);
    } else {
      var q := at + |StringBytes(p.name)|;
      StringRead(b, at, p.name);
      CutSplit(b, q, Out32(|p.tags|), RecordsBytes(p.tags));
      if |b| >= q + 4 {
        HereIs(b, q, Out32(|p.tags|));
        U32Out32(b, q, |p.tags|);
        var key := LowerName(p.name);
        if key in db.programs {
          RecordsCut(b, q + 4, p.tags, false, db.programs[key], t);
        } else {
          SkippedCut(b, q + 4, p.tags, t);
        }
      }
    }
  }

  // How many bytes at the end of the programs may be missing.
  function Slack(ps: seq<Program>): nat { if ps == [] then 0 else LastData(ps[|ps| - 1].tags) }

  function WipedPrograms(ps: seq<Program>, missing: nat): (r: seq<Program>)
    requires 0 < missing <= Slack(ps)
    ensures |r| == |ps|
  {
    ps[..|ps| - 1] + [WipedProgram(ps[|ps| - 1], missing)]
  }

  lemma {:induction false} SlackFits(ps: seq<Program>)
    ensures ps != [] ==> |ProgramsBytes(ps)| >= Slack(ps) + 6
    decreases |ps|
  {
    hide ProgramBytes, LastData;
    if ps != [] {
      ProgramSize(ps[0]);
      LastFits(ps[0].tags);
      NoLastData();
      SlackFits(ps[1..]);
    }
  }

  lemma NoLastData()
    ensures LastData([]) == 0
  {}

  lemma WipedTail(ps: seq<Program>, missing: nat)
    requires |ps| > 1 && 0 < missing <= Slack(ps)
    ensures Slack(ps[1..]) == Slack(ps)
    ensures WipedPrograms(ps, missing)[0] == ps[0] &&
      WipedPrograms(ps, missing)[1..] == WipedPrograms(ps[1..], missing)
  {
    hide LastData, WipedProgram;
  }

  // Cut inside a program with others behind it, nothing is loaded.
  lemma FirstCut(b: seq<bv8>, at: nat, p: Program, n: nat, db: Db, t: Tally)
    requires ProgramOk(p) && Cut(b, at, ProgramBytes(p)) && n > 1
    ensures LoadPrograms(b, at, n, db, t).None?
  {
    hide ProgramBytes, Cut, ProgramOk, LastData, WipedProgram, RestoreProgram, ReadString, ReadRecord, LoadProgram;
    ProgramCut(b, at, p, db, t);
    var r := LoadProgram(b, at, db, t);
    if r.Some? { NothingLoaded(b, r.value.1, r.value.0.db, r.value.0.tally); }
  }

  lemma NothingLoaded(b: seq<bv8>, p: nat, db: Db, t: Tally)
    requires p > |b|
    ensures LoadProgram(b, p, db, t).None?
  {
    NothingBehind(b, p);
  }

  lemma LastCut(b: seq<bv8>, at: nat, p: Program, db: Db, t: Tally)
    requires ProgramOk(p) && Cut(b, at, ProgramBytes(p))
    ensures var missing := at + |ProgramBytes(p)| - |b|;
      missing > 0 &&
      LoadPrograms(b, at, 1, db, t) ==
      if missing > Slack([p]) then None else Some(RestorePrograms(db, WipedPrograms([p], missing), t))
  {
    hide ProgramBytes, Cut, ProgramOk, LowerName, RestoreAll, LoadProgram;
    CutBounds(b, at, ProgramBytes(p));
    ProgramCut(b, at, p, db, t);
    var missing := at + |ProgramBytes(p)| - |b|;
    if missing <= Slack([p]) {
      assert WipedPrograms([p], missing) == [WipedProgram(p, missing)];
      assert [WipedProgram(p, missing)][1..] == [];
    }
  }

  lemma {:induction false} ProgramsCut(b: seq<bv8>, at: nat, ps: seq<Program>, db: Db, t: Tally)
    requires ProgramsOk(ps) && Cut(b, at, ProgramsBytes(ps))
    ensures var missing := at + |ProgramsBytes(ps)| - |b|;
      missing > 0 &&
      LoadPrograms(b, at, |ps|, db, t) ==
      if missing > Slack(ps) then None else Some(RestorePrograms(db, WipedPrograms(ps, missing), t))
    decreases |ps|
  {
    hide ProgramBytes, LoadProgram, Cut, Here, ProgramOk, LowerName, RestoreAll, LastData, WipedProgram;
    hide WipedPrograms, Slack;
    CutBounds(b, at, ProgramsBytes(ps));
    var p, rest := ps[0], ps[1..];
    var missing := at + |ProgramsBytes(ps)| - |b|;
    if rest == [] {
      assert ps == [p] && ProgramsBytes(rest) == [] && ProgramsBytes(ps) == ProgramBytes(p);
      LastCut(b, at, p, db, t);
    } else {
      CutSplit(b, at, ProgramBytes(p), ProgramsBytes(rest));
      SlackFits(rest);
      SameSlack(ps);
      if |b| < at + |ProgramBytes(p)| {
        FirstCut(b, at, p, |ps|, db, t);
      } else {
        ProgramLoaded(b, at, p, db, t);
        var first := RestoreProgram(db, p, t);
        ProgramsCut(b, at + |ProgramBytes(p)|, rest, first.db, first.tally);
        if missing <= Slack(ps) { WipedTail(ps, missing); }
      }
    }
  }

  lemma SameSlack(ps: seq<Program>)
    requires |ps| > 1
    ensures Slack(ps[1..]) == Slack(ps)
  {}

  // ---- A snapshot that ends too early ----

  lemma WholeCut(b: seq<bv8>, n: nat)
    requires n < |b|
    ensures Cut(b[..n], 0, b)
  {
    assert b[..n][0..] == b[..n];
  }

  // Of a saved snapshot that lost its end, the loader takes exactly those that
  // lost no more than the data of their last record; and it fills what is missing
  // with zeros.
  lemma TruncatedExact(db: Db, s: Snapshot, n: nat)
    requires SnapshotOk(s) && n < |Save(s)|
    ensures var missing := |Save(s)| - n;
      Load(db, Save(s)[..n]) ==
      if missing > Slack(s.programs) then None
      else Some(RestoreSnapshot(db, s.(programs := WipedPrograms(s.programs, missing))))
  {
    hide Counted, RecordsBytes, ProgramsBytes, RestoreRecords, LoadPrograms, RestoreAll, WipedPrograms, Slack;
    hide RestorePrograms, RecordsOk, ProgramsOk, U32, Out32, Here, Cut;
    var b, count := Save(s)[..n], Out32(|s.programs|);
    WholeCut(Save(s), n);
    SnapshotSize(s);
    SlackFits(s.programs);
    NoSlack();
    CutSplit(b, 0, HEADER, Counted(s.controller) + (count + ProgramsBytes(s.programs)));
    if n >= 8 {
      HereIs(b, 0, HEADER);
      assert b[..4] == HEADER[..4] && b[4] == HEADER[4];
      CutSplit(b, 8, Counted(s.controller), count + ProgramsBytes(s.programs));
      if n < 8 + |Counted(s.controller)| {
        ControllerCut(b, db, s.controller);
      } else {
        var q := 8 + |Counted(s.controller)|;
        CountRead(b, 8, s.controller);
        RecordsRestoredOk(b, 12, s.controller, db.controller);
        CutSplit(b, q, count, ProgramsBytes(s.programs));
        if n >= q + 4 {
          ProgramCountRead(b, q, |s.programs|);
          var (m, t) := RestoreAll(true, db.controller, s.controller, Tally(0, 0));
          ProgramsCut(b, q + 4, s.programs, db.(controller := m), t);
        }
      }
    }
  }

  lemma NoSlack()
    ensures Slack([]) == 0
  {}

  lemma SnapshotSize(s: Snapshot)
    ensures |Save(s)| == 12 + |Counted(s.controller)| + |ProgramsBytes(s.programs)|
    ensures |Counted(s.controller)| == 4 + |RecordsBytes(s.controller)|
  {
    hide RecordsBytes, ProgramsBytes, Out32;
  }

  // Cut in front of the programs, whatever was read there.
  lemma ControllerCut(b: seq<bv8>, db: Db, rs: seq<Record>)
    requires |b| >= 8 && RecordsOk(rs) && Cut(b, 8, Counted(rs))
    ensures Load(db, b).None?
  {
    hide RecordsBytes, RestoreRecords, RestoreAll, Out32, U32, Cut, Here, RecordOk, LastData, WipedLast, LoadPrograms;
    CutSplit(b, 8, Out32(|rs|), RecordsBytes(rs));
    if |b| >= 12 {
      HereIs(b, 8, Out32(|rs|));
      U32Out32(b, 8, |rs|);
      RecordsCut(b, 12, rs, true, db.controller, Tally(0, 0));
    }
  }
}
