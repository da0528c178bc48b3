// Saving the values of all tags to a snapshot, and loading a snapshot into a
// database that may have been set up differently since.
module Persistence {
  import opened Options
  import opened Sequences
  import opened TagServices
  import opened Fragments

  type Name = seq<bv8>

  datatype Record = Record(name: Name, tagType: nat, data: seq<bv8>)

  datatype Program = Program(name: Name, tags: seq<Record>)

  datatype Snapshot = Snapshot(controller: seq<Record>, programs: seq<Program>)

  // ---- Writing ----

  function StringBytes(s: Name): seq<bv8> { Out16(|s| % 0x1_0000) + s }

  function RecordBytes(r: Record): seq<bv8> {
    StringBytes(r.name) + (Out16(r.tagType) + (Out32(|r.data| % 0x1_0000_0000) + r.data))
  }

  function RecordsBytes(rs: seq<Record>): seq<bv8>
    decreases |rs|
  {
    if rs == [] then [] else RecordBytes(rs[0]) + RecordsBytes(rs[1..])
  }

  function Counted(rs: seq<Record>): seq<bv8> { Out32(|rs| % 0x1_0000_0000) + RecordsBytes(rs) }

  function ProgramBytes(p: Program): seq<bv8> { StringBytes(p.name) + Counted(p.tags) }

  function ProgramsBytes(ps: seq<Program>): seq<bv8>
    decreases |ps|
  {
    if ps == [] then [] else ProgramBytes(ps[0]) + ProgramsBytes(ps[1..])
  }

  const HEADER: seq<bv8> := [0x45, 0x49, 0x50, 0x53, 0x01, 0x00, 0x00, 0x00]

  function Save(s: Snapshot): seq<bv8> {
    HEADER + (Counted(s.controller) + (Out32(|s.programs| % 0x1_0000_0000) + ProgramsBytes(s.programs)))
  }

  // ---- Reading: a position, or none once a read has failed ----

  function ReadString(b: seq<bv8>, p: nat): (r: Option<(Name, nat)>)
    ensures r.Some? ==> p < r.value.1 <= |b|
  {
    if p + 2 > |b| then None
    else
      var n := U16(b, p);
      if p + 2 + n > |b| then None else Some((b[p + 2..p + 2 + n], p + 2 + n))
  }

  // The data of a record is not checked for its length: what is missing is zero,
  // and the stream is spent, so that every later read fails.
  function ReadData(b: seq<bv8>, p: nat, n: nat): (r: (seq<bv8>, nat))
    requires p <= |b|
    ensures |r.0| == n && p <= r.1
  {
    if p + n <= |b| then (b[p..p + n], p + n) else (b[p..] + Zeros8(n - (|b| - p)), |b| + 1)
  }

  function ReadRecord(b: seq<bv8>, p: nat): (r: Option<(Record, nat)>)
    ensures r.Some? ==> p < r.value.1
  {
    var name := ReadString(b, p);
    if name.None? || name.value.1 + 6 > |b| then None
    else
      var q := name.value.1;
      var (data, next) := ReadData(b, q + 6, U32(b, q + 2));
      Some((Record(name.value.0, U16(b, q), data), next))
  }

  // ---- The database a snapshot is loaded into ----

  datatype TagValue = TagValue(tagType: nat, data: seq<bv8>)

  type Scope = map<Name, TagValue>

  datatype Db = Db(controller: Scope, programs: map<Name, Scope>)

  function LowerByte(b: bv8): bv8 { if 0x41 <= b <= 0x5A then b + 0x20 else b }

  function LowerName(s: Name): (r: Name)
    ensures |r| == |s|
  {
    seq(|s|, i requires 0 <= i < |s| => LowerByte(s[i]))
  }

  predicate CasePair(a: bv8, b: bv8) { 0x41 <= a <= 0x5A && b == a + 0x20 }

  predicate UpToCase(a: bv8, b: bv8) { a == b || CasePair(a, b) || CasePair(b, a) }

  lemma LowerExact(a: bv8, b: bv8)
    ensures LowerByte(a) == LowerByte(b) <==> UpToCase(a, b)
  {}

  // Names have one key exactly if they differ in nothing but the case of letters.
  lemma LowerNameExact(a: Name, b: Name)
    ensures LowerName(a) == LowerName(b) <==> |a| == |b| && forall i :: 0 <= i < |a| ==> UpToCase(a[i], b[i])
  {
    hide LowerByte, UpToCase;
    if |a| == |b| {
      forall i | 0 <= i < |a|
        ensures LowerName(a)[i] == LowerName(b)[i] <==> UpToCase(a[i], b[i])
      {
        LowerExact(a[i], b[i]);
      }
    }
  }

  // A controller tag is looked up by what stands in front of the first dot.
  function RootOf(s: Name): (r: Name)
    ensures 0x2E !in s ==> r == s
    decreases |s|
  {
    if s == [] || s[0] == 0x2E then [] else [s[0]] + RootOf(s[1..])
  }

  predicate Fits(m: Scope, key: Name, r: Record) {
    key in m && m[key].tagType == r.tagType && |m[key].data| == |r.data|
  }

  function Restore(m: Scope, key: Name, r: Record): Scope {
    if Fits(m, key, r) then m[key := TagValue(r.tagType, r.data)] else m
  }

  datatype Tally = Tally(restored: nat, skipped: nat)

  function Count(t: Tally, fits: bool): Tally {
    if fits then t.(restored := t.restored + 1) else t.(skipped := t.skipped + 1)
  }

  function KeyOf(root: bool, s: Name): Name { LowerName(if root then RootOf(s) else s) }

  datatype Progress = Progress(scope: Scope, tally: Tally, next: nat)

  // Reads n records from p and restores those that fit a tag of the scope.
  function RestoreRecords(b: seq<bv8>, p: nat, n: nat, root: bool, m: Scope, t: Tally): Option<Progress>
    decreases n
  {
    if n == 0 then Some(Progress(m, t, p))
    else
      var r := ReadRecord(b, p);
      if r.None? then None
      else
        var (rec, next) := r.value;
        var key := KeyOf(root, rec.name);
        RestoreRecords(b, next, n - 1, root, Restore(m, key, rec), Count(t, Fits(m, key, rec)))
  }

  // Of a program that is not registered the records are read all the same.
  function SkipRecords(b: seq<bv8>, p: nat, n: nat, t: Tally): Option<Progress>
    decreases n
  {
    if n == 0 then Some(Progress(map[], t, p))
    else
      var r := ReadRecord(b, p);
      if r.None? then None else SkipRecords(b, r.value.1, n - 1, Count(t, false))
  }

  datatype Loaded = Loaded(db: Db, tally: Tally)

  function LoadProgram(b: seq<bv8>, p: nat, db: Db, t: Tally): Option<(Loaded, nat)> {
    var name := ReadString(b, p);
    if name.None? || name.value.1 + 4 > |b| then None
    else
      var (key, q, n) := (LowerName(name.value.0), name.value.1 + 4, U32(b, name.value.1));
      if key in db.programs then
        var r := RestoreRecords(b, q, n, false, db.programs[key], t);
        if r.None? then None
        else Some((Loaded(db.(programs := db.programs[key := r.value.scope]), r.value.tally), r.value.next))
      else
        var r := SkipRecords(b, q, n, t);
        if r.None? then None else Some((Loaded(db, r.value.tally), r.value.next))
  }

  function LoadPrograms(b: seq<bv8>, p: nat, n: nat, db: Db, t: Tally): Option<Loaded>
    decreases n
  {
    if n == 0 then Some(Loaded(db, t))
    else
      var r := LoadProgram(b, p, db, t);
      if r.None? then None else LoadPrograms(b, r.value.1, n - 1, r.value.0.db, r.value.0.tally)
  }

  function Load(db: Db, b: seq<bv8>): Option<Loaded> {
    if |b| < 8 || b[..4] != HEADER[..4] || b[4] > 1 || 12 > |b| then None
    else
      var r := RestoreRecords(b, 12, U32(b, 8), true, db.controller, Tally(0, 0));
      if r.None? || r.value.next + 4 > |b| then None
      else
        LoadPrograms(b, r.value.next + 4, U32(b, r.value.next), db.(controller := r.value.scope), r.value.tally)
  }

  // ---- A record is read back as it was written ----

  // As long as its count can say.
  predicate NameOk(s: Name) { |s| < 0x1_0000 }

  predicate RecordOk(r: Record) { NameOk(r.name) && r.tagType < 0x1_0000 && |r.data| < 0x1_0000_0000 }

  lemma StringRead(b: seq<bv8>, p: nat, s: Name)
    requires NameOk(s) && Here(b, p, StringBytes(s))
    ensures ReadString(b, p) == Some((s, p + |StringBytes(s)|))
  {
    hide U16, Out16;
    HereSplit(b, p, Out16(|s|), s);
    U16Out16(b, p, |s|);
  }

  lemma RecordRead(b: seq<bv8>, p: nat, r: Record)
    requires RecordOk(r) && Here(b, p, RecordBytes(r))
    ensures ReadRecord(b, p) == Some((r, p + |RecordBytes(r)|))
  {
    hide U16, U32, Out16, Out32, StringBytes, NameOk, ReadString;
    var head, size := StringBytes(r.name), Out32(|r.data|);
    HereSplit(b, p, head, Out16(r.tagType) + (size + r.data));
    var q := p + |head|;
    HereSplit(b, q, Out16(r.tagType), size + r.data);
    HereSplit(b, q + 2, size, r.data);
    StringRead(b, p, r.name);
    U16Out16(b, q, r.tagType);
    U32Out32(b, q + 2, |r.data|);
  }

  // ---- What loading amounts to, without the bytes ----

  predicate RecordsOk(rs: seq<Record>) { |rs| < 0x1_0000_0000 && forall i :: 0 <= i < |rs| ==> RecordOk(rs[i]) }

  function RestoreAll(root: bool, m: Scope, rs: seq<Record>, t: Tally): (r: (Scope, Tally))
    decreases |rs|
  {
    if rs == [] then (m, t)
    else
      var key := KeyOf(root, rs[0].name);
      RestoreAll(root, Restore(m, key, rs[0]), rs[1..], Count(t, Fits(m, key, rs[0])))
  }

  function RestorePrograms(db: Db, ps: seq<Program>, t: Tally): Loaded
    decreases |ps|
  {
    if ps == [] then Loaded(db, t)
    else
      var key := LowerName(ps[0].name);
      if key in db.programs then
        var (m, u) := RestoreAll(false, db.programs[key], ps[0].tags, t);
        RestorePrograms(db.(programs := db.programs[key := m]), ps[1..], u)
      else RestorePrograms(db, ps[1..], t.(skipped := t.skipped + |ps[0].tags|))
  }

  function RestoreSnapshot(db: Db, s: Snapshot): Loaded {
    var (m, t) := RestoreAll(true, db.controller, s.controller, Tally(0, 0));
    RestorePrograms(db.(controller := m), s.programs, t)
  }

  lemma {:induction false} RecordsRestored(b: seq<bv8>, p: nat, rs: seq<Record>, root: bool, m: Scope, t: Tally)
    requires (forall i :: 0 <= i < |rs| ==> RecordOk(rs[i])) && Here(b, p, RecordsBytes(rs))
    ensures var (m', t') := RestoreAll(root, m, rs, t);
      RestoreRecords(b, p, |rs|, root, m, t) == Some(Progress(m', t', p + |RecordsBytes(rs)|))
    decreases |rs|
  {
    hide RecordBytes, ReadRecord, Here, Fits, Restore, Count, KeyOf;
    if rs != [] {
      var r := rs[0];
      HereSplit(b, p, RecordBytes(r), RecordsBytes(rs[1..]));
      RecordRead(b, p, r);
      var key := KeyOf(root, r.name);
      RecordsRestored(b, p + |RecordBytes(r)|, rs[1..], root, Restore(m, key, r), Count(t, Fits(m, key, r)));
    }
  }

  lemma {:induction false} RecordsSkipped(b: seq<bv8>, p: nat, rs: seq<Record>, t: Tally)
    requires (forall i :: 0 <= i < |rs| ==> RecordOk(rs[i])) && Here(b, p, RecordsBytes(rs))
    ensures SkipRecords(b, p, |rs|, t) == Some(Progress(map[], t.(skipped := t.skipped + |rs|), p + |RecordsBytes(rs)|))
    decreases |rs|
  {
    hide RecordBytes, ReadRecord, Here;
    if rs != [] {
      HereSplit(b, p, RecordBytes(rs[0]), RecordsBytes(rs[1..]));
      RecordRead(b, p, rs[0]);
      RecordsSkipped(b, p + |RecordBytes(rs[0])|, rs[1..], Count(t, false));
    }
  }

  predicate ProgramOk(p: Program) { NameOk(p.name) && RecordsOk(p.tags) }

  lemma CountRead(b: seq<bv8>, p: nat, rs: seq<Record>)
    requires RecordsOk(rs) && Here(b, p, Counted(rs))
    ensures p + 4 <= |b| && U32(b, p) == |rs| && Here(b, p + 4, RecordsBytes(rs)) &&
      |Counted(rs)| == 4 + |RecordsBytes(rs)|
  {
    hide U32, Out32, RecordsBytes, RecordOk;
    HereSplit(b, p, Out32(|rs|), RecordsBytes(rs));
    U32Out32(b, p, |rs|);
  }

  // One program's part of the loaded result.
  function RestoreProgram(db: Db, p: Program, t: Tally): Loaded {
    var key := LowerName(p.name);
    if key in db.programs then
      var (m, u) := RestoreAll(false, db.programs[key], p.tags, t);
      Loaded(db.(programs := db.programs[key := m]), u)
    else Loaded(db, t.(skipped := t.skipped + |p.tags|))
  }

  lemma ProgramLoaded(b: seq<bv8>, at: nat, p: Program, db: Db, t: Tally)
    requires ProgramOk(p) && Here(b, at, ProgramBytes(p))
    ensures LoadProgram(b, at, db, t) == Some((RestoreProgram(db, p, t), at + |ProgramBytes(p)|))
  {
    hide StringBytes, Counted, RecordsBytes, ReadString, RestoreRecords;
    hide SkipRecords, RestoreAll, RecordOk, Here, U32, LowerName;
    HereSplit(b, at, StringBytes(p.name), Counted(p.tags));
    StringRead(b, at, p.name);
    var q := at + |StringBytes(p.name)|;
    CountRead(b, q, p.tags);
    var key := LowerName(p.name);
    if key in db.programs {
      RecordsRestored(b, q + 4, p.tags, false, db.programs[key], t);
    } else {
      RecordsSkipped(b, q + 4, p.tags, t);
    }
  }

  predicate ProgramsOk(ps: seq<Program>) { forall i :: 0 <= i < |ps| ==> ProgramOk(ps[i]) }

  lemma {:induction false} ProgramsLoaded(b: seq<bv8>, at: nat, ps: seq<Program>, db: Db, t: Tally)
    requires ProgramsOk(ps) && Here(b, at, ProgramsBytes(ps))
    ensures LoadPrograms(b, at, |ps|, db, t) == Some(RestorePrograms(db, ps, t))
    decreases |ps|
  {
    hide ProgramBytes, LoadProgram, Here, ProgramOk, LowerName, RestoreAll;
    if ps != [] {
      HereSplit(b, at, ProgramBytes(ps[0]), ProgramsBytes(ps[1..]));
      ProgramLoaded(b, at, ps[0], db, t);
      var first := RestoreProgram(db, ps[0], t);
      ProgramsLoaded(b, at + |ProgramBytes(ps[0])|, ps[1..], first.db, first.tally);
    }
  }

  predicate SnapshotOk(s: Snapshot) {
    RecordsOk(s.controller) && ProgramsOk(s.programs) && |s.programs| < 0x1_0000_0000
  }

  // Of a snapshot with any eight bytes in front of what was saved: the first four
  // must be the mark, the fifth no newer version, and the rest is ignored.
  lemma HeaderExact(db: Db, s: Snapshot, h: seq<bv8>)
    requires SnapshotOk(s) && |h| == 8
    ensures |Save(s)| >= 8 && Load(db, h + Save(s)[8..]) ==
      if h[0] == 0x45 && h[1] == 0x49 && h[2] == 0x50 && h[3] == 0x53 && h[4] <= 1 then Some(RestoreSnapshot(db, s))
      else None
  {
    hide Counted, RecordsBytes, ProgramsBytes, RestoreRecords, LoadPrograms, RestoreAll;
    hide RestorePrograms, RecordsOk, ProgramsOk, U32, Out32, Here;
    var count := Out32(|s.programs|);
    var b := h + (Counted(s.controller) + (count + ProgramsBytes(s.programs)));
    assert Save(s)[8..] == Counted(s.controller) + (count + ProgramsBytes(s.programs));
    WholeHere(b);
    HereSplit(b, 0, h, Counted(s.controller) + (count + ProgramsBytes(s.programs)));
    HereSplit(b, 8, Counted(s.controller), count + ProgramsBytes(s.programs));
    CountRead(b, 8, s.controller);
    RecordsRestoredOk(b, 12, s.controller, db.controller);
    var q := 8 + |Counted(s.controller)|;
    HereSplit(b, q, count, ProgramsBytes(s.programs));
    ProgramCountRead(b, q, |s.programs|);
    var (m, t) := RestoreAll(true, db.controller, s.controller, Tally(0, 0));
    ProgramsLoaded(b, q + 4, s.programs, db.(controller := m), t);
    assert b[..4] == [b[0], b[1], b[2], b[3]] && HEADER[..4] == [0x45, 0x49, 0x50, 0x53];
  }

  // Loading what was saved, into any database, stays in step with the records
  // from the first to the last.
  lemma SavedIsLoaded(db: Db, s: Snapshot)
    requires SnapshotOk(s)
    ensures Load(db, Save(s)) == Some(RestoreSnapshot(db, s))
  {
    hide Counted, ProgramsBytes, Load, RestoreSnapshot, SnapshotOk, Out32;
    HeaderExact(db, s, HEADER);
    assert HEADER + Save(s)[8..] == Save(s);
  }

  lemma WholeHere(b: seq<bv8>)
    ensures Here(b, 0, b)
  {
    assert b[0..|b|] == b;
  }

  lemma RecordsRestoredOk(b: seq<bv8>, p: nat, rs: seq<Record>, m: Scope)
    requires RecordsOk(rs) && Here(b, p, RecordsBytes(rs))
    ensures var (m', t') := RestoreAll(true, m, rs, Tally(0, 0));
      RestoreRecords(b, p, |rs|, true, m, Tally(0, 0)) == Some(Progress(m', t', p + |RecordsBytes(rs)|))
  {
    hide RecordOk, Here, RecordsBytes, RestoreAll, RestoreRecords;
    RecordsRestored(b, p, rs, true, m, Tally(0, 0));
  }

  lemma ProgramCountRead(b: seq<bv8>, p: nat, n: nat)
    requires n < 0x1_0000_0000 && Here(b, p, Out32(n))
    ensures p + 4 <= |b| && U32(b, p) == n
  {
    hide U32, Out32;
    U32Out32(b, p, n);
  }

  // ---- Which tags hold what afterwards ----

  // A controller tag is found again under its own name exactly if that has no dot;
  // otherwise its record is looked up under what stands in front of it.
  lemma RootIsWhole(s: Name)
    ensures KeyOf(true, s) == LowerName(s) <==> 0x2E !in s
  {
    RootShorter(s);
  }

  lemma {:induction false} RootShorter(s: Name)
    ensures 0x2E in s ==> |RootOf(s)| < |s|
    decreases |s|
  {
    if s != [] && s[0] != 0x2E { RootShorter(s[1..]); }
  }

  // A record that is looked up under the key of a tag and fits it.
  predicate RecordFor(root: bool, m: Scope, key: Name, rs: seq<Record>, i: nat)
    requires i < |rs|
  {
    KeyOf(root, rs[i].name) == key && Fits(m, key, rs[i])
  }

  // The last of them.
  predicate LastFor(root: bool, m: Scope, key: Name, rs: seq<Record>, i: nat)
    requires i < |rs|
  {
    RecordFor(root, m, key, rs, i) && forall j :: i < j < |rs| ==> !RecordFor(root, m, key, rs, j)
  }

  predicate RestoredFrom(root: bool, m: Scope, after: Scope, rs: seq<Record>) {
    && after.Keys == m.Keys
    && (forall k, i :: k in m && 0 <= i < |rs| && LastFor(root, m, k, rs, i) ==>
          after[k] == TagValue(rs[i].tagType, rs[i].data))
    && (forall k :: k in m && (forall i :: 0 <= i < |rs| ==> !RecordFor(root, m, k, rs, i)) ==> after[k] == m[k])
  }

  function FitCount(root: bool, m: Scope, rs: seq<Record>): nat
    decreases |rs|
  {
    if rs == [] then 0 else (if Fits(m, KeyOf(root, rs[0].name), rs[0]) then 1 else 0) + FitCount(root, m, rs[1..])
  }

  // What fits a scope is not changed by what was restored into it before.
  predicate SameShape(m: Scope, n: Scope) {
    m.Keys == n.Keys && forall k :: k in m ==> m[k].tagType == n[k].tagType && |m[k].data| == |n[k].data|
  }

  lemma RestoreShape(m: Scope, key: Name, r: Record)
    ensures SameShape(m, Restore(m, key, r))
  {}

  lemma ShapeFits(m: Scope, n: Scope, key: Name, r: Record)
    requires SameShape(m, n)
    ensures Fits(m, key, r) == Fits(n, key, r)
  {}

  lemma ShapeFor(root: bool, m: Scope, n: Scope, rs: seq<Record>)
    requires SameShape(m, n)
    ensures forall k, i :: 0 <= i < |rs| ==> RecordFor(root, m, k, rs, i) == RecordFor(root, n, k, rs, i)
  {
    hide Fits, KeyOf;
    forall k, i | 0 <= i < |rs|
      ensures RecordFor(root, m, k, rs, i) == RecordFor(root, n, k, rs, i)
    {
      ShapeFits(m, n, k, rs[i]);
    }
  }

  lemma {:induction false} ShapeCount(root: bool, m: Scope, n: Scope, rs: seq<Record>)
    requires SameShape(m, n)
    ensures FitCount(root, m, rs) == FitCount(root, n, rs)
    decreases |rs|
  {
    hide Fits, KeyOf;
    if rs != [] {
      ShapeFits(m, n, KeyOf(root, rs[0].name), rs[0]);
      ShapeCount(root, m, n, rs[1..]);
    }
  }

  // A tag for which a record with its name, type and size was saved holds the
  // bytes of the last such record, every other tag what it held; and each record
  // is counted once, as restored if it fitted.
  lemma {:induction false} RestoreAllExact(root: bool, m: Scope, rs: seq<Record>, t: Tally)
    ensures var (after, u) := RestoreAll(root, m, rs, t);
      RestoredFrom(root, m, after, rs) &&
      u.restored == t.restored + FitCount(root, m, rs) && u.restored + u.skipped == t.restored + t.skipped + |rs|
    decreases |rs|
  {
    hide KeyOf, SameShape;
    if rs != [] {
      var key, rest := KeyOf(root, rs[0].name), rs[1..];
      var m1 := Restore(m, key, rs[0]);
      RestoreAllExact(root, m1, rest, Count(t, Fits(m, key, rs[0])));
      RestoreShape(m, key, rs[0]);
      ShapeCount(root, m, m1, rest);
      ShapeFor(root, m, m1, rest);
      FirstThenRest(root, m, rs, RestoreAll(root, m1, rest, Count(t, Fits(m, key, rs[0]))).0);
    }
  }

  lemma FirstThenRest(root: bool, m: Scope, rs: seq<Record>, after: Scope)
    requires rs != [] && RestoredFrom(root, Restore(m, KeyOf(root, rs[0].name), rs[0]), after, rs[1..])
    ensures RestoredFrom(root, m, after, rs)
  {
    hide KeyOf, SameShape;
    var key, rest := KeyOf(root, rs[0].name), rs[1..];
    var m1 := Restore(m, key, rs[0]);
    RestoreShape(m, key, rs[0]);
    ShapeFor(root, m, m1, rest);
    LaterFor(root, m, rs);
    forall k, i | k in m && 0 <= i < |rs| && LastFor(root, m, k, rs, i)
      ensures after[k] == TagValue(rs[i].tagType, rs[i].data)
    {
      if i > 0 {
        assert rest[i - 1] == rs[i] && LastFor(root, m1, k, rest, i - 1);
      } else {
        assert forall j :: 0 <= j < |rest| ==> !RecordFor(root, m1, k, rest, j);
        assert m1[k] == TagValue(rs[0].tagType, rs[0].data);
      }
    }
    forall k | k in m && forall i :: 0 <= i < |rs| ==> !RecordFor(root, m, k, rs, i)
      ensures after[k] == m[k]
    {
      assert !RecordFor(root, m, k, rs, 0) && m1[k] == m[k];
      assert forall j :: 0 <= j < |rest| ==> !RecordFor(root, m1, k, rest, j);
    }
  }

  lemma LaterFor(root: bool, m: Scope, rs: seq<Record>)
    requires rs != []
    ensures forall k, j :: 0 <= j < |rs| - 1 ==> RecordFor(root, m, k, rs[1..], j) == RecordFor(root, m, k, rs, j + 1)
  {
    hide Fits, KeyOf;
    assert forall j :: 0 <= j < |rs| - 1 ==> rs[1..][j] == rs[j + 1];
  }

  predicate DistinctPrograms(ps: seq<Program>) {
    forall i, j :: 0 <= i < j < |ps| ==> LowerName(ps[i].name) != LowerName(ps[j].name)
  }

  function TagCount(ps: seq<Program>): nat
    decreases |ps|
  {
    if ps == [] then 0 else |ps[0].tags| + TagCount(ps[1..])
  }

  predicate ProgramsRestored(db: Db, after: Db, ps: seq<Program>) {
    && after.controller == db.controller && after.programs.Keys == db.programs.Keys
    && (forall k, i :: k in db.programs && 0 <= i < |ps| && LowerName(ps[i].name) == k ==>
          RestoredFrom(false, db.programs[k], after.programs[k], ps[i].tags))
    && (forall k :: k in db.programs && (forall i :: 0 <= i < |ps| ==> LowerName(ps[i].name) != k) ==>
          after.programs[k] == db.programs[k])
  }

  lemma {:induction false} RestoreProgramsExact(db: Db, ps: seq<Program>, t: Tally)
    requires DistinctPrograms(ps)
    ensures var l := RestorePrograms(db, ps, t);
      ProgramsRestored(db, l.db, ps) && l.tally.restored + l.tally.skipped == t.restored + t.skipped + TagCount(ps)
    decreases |ps|
  {
    hide LowerName, RestoreAll, RestoredFrom, ProgramsRestored;
    if ps == [] {
      NoneRestored(db);
    } else {
      var key, first := LowerName(ps[0].name), RestoreProgram(db, ps[0], t);
      if key in db.programs {
        RestoreAllExact(false, db.programs[key], ps[0].tags, t);
      }
      assert forall i, j :: 0 <= i < j < |ps| - 1 ==> ps[1..][i] == ps[i + 1] && ps[1..][j] == ps[j + 1];
      RestoreProgramsExact(first.db, ps[1..], first.tally);
      FirstThenPrograms(db, ps, first.db, RestorePrograms(first.db, ps[1..], first.tally).db);
    }
  }

  lemma NoneRestored(db: Db)
    ensures ProgramsRestored(db, db, [])
  {}

  lemma FirstThenPrograms(db: Db, ps: seq<Program>, first: Db, after: Db)
    requires ps != [] && DistinctPrograms(ps) && ProgramsRestored(first, after, ps[1..])
    requires first.controller == db.controller && first.programs.Keys == db.programs.Keys
    requires forall k :: k in db.programs && k != LowerName(ps[0].name) ==> first.programs[k] == db.programs[k]
    requires var k := LowerName(ps[0].name);
      k in db.programs ==> RestoredFrom(false, db.programs[k], first.programs[k], ps[0].tags)
    ensures ProgramsRestored(db, after, ps)
  {
    hide LowerName, RestoredFrom;
    var rest := ps[1..];
    assert forall j :: 0 <= j < |rest| ==> rest[j] == ps[j + 1];
    forall k, i | k in db.programs && 0 <= i < |ps| && LowerName(ps[i].name) == k
      ensures RestoredFrom(false, db.programs[k], after.programs[k], ps[i].tags)
    {
      if i > 0 { assert rest[i - 1] == ps[i]; }
    }
  }

  // All of it: what a snapshot restores, and that restored and skipped are
  // together the records it holds.
  lemma LoadExact(db: Db, s: Snapshot)
    requires SnapshotOk(s) && DistinctPrograms(s.programs)
    ensures Load(db, Save(s)).Some?
    ensures var l := Load(db, Save(s)).value;
      RestoredFrom(true, db.controller, l.db.controller, s.controller) &&
      ProgramsRestored(db.(controller := l.db.controller), l.db, s.programs) &&
      l.tally.restored + l.tally.skipped == |s.controller| + TagCount(s.programs)
  {
    hide Load, Save, RestoreAll, RestorePrograms, RestoredFrom, ProgramsOk, RecordsOk, DistinctPrograms, FitCount;
    SavedIsLoaded(db, s);
    RestoreAllExact(true, db.controller, s.controller, Tally(0, 0));
    var (m, t) := RestoreAll(true, db.controller, s.controller, Tally(0, 0));
    RestoreProgramsExact(db.(controller := m), s.programs, t);
  }
}
