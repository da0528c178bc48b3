// The snapshot written and read record by record.
module SnapshotFiles {
  import opened Options
  import opened TagServices
  import opened Fragments
  import opened Persistence

  // ---- Writing ----

  method WriteTags(os: seq<bv8>, tags: seq<Record>) returns (out: seq<bv8>)
    ensures out == os + Counted(tags)
  {
    hide RecordBytes, Out32;
    out := os + Out32(|tags| % 0x1_0000_0000);
    ghost var start := out;
    assert tags[0..] == tags;
    for i := 0 to |tags|
      invariant out + RecordsBytes(tags[i..]) == start + RecordsBytes(tags)
    {
      assert tags[i..][0] == tags[i] && tags[i..][1..] == tags[i + 1..];
      assert (out + RecordBytes(tags[i])) + RecordsBytes(tags[i + 1..]) ==
        out + (RecordBytes(tags[i]) + RecordsBytes(tags[i + 1..]));
      out := out + RecordBytes(tags[i]);
    }
    assert tags[|tags|..] == [];
    assert out + [] == out;
  }

  method WriteProgram(os: seq<bv8>, p: Program) returns (out: seq<bv8>)
    ensures out == os + ProgramBytes(p)
  {
    hide StringBytes, Counted;
    out := os + StringBytes(p.name);
    out := WriteTags(out, p.tags);
  }

  method SaveTo(s: Snapshot) returns (out: seq<bv8>)
    ensures out == Save(s)
  {
    hide ProgramBytes, Counted, Out32;
    out := WriteTags(HEADER, s.controller);
    out := out + Out32(|s.programs| % 0x1_0000_0000);
    ghost var start := out;
    assert s.programs[0..] == s.programs;
    for i := 0 to |s.programs|
      invariant out + ProgramsBytes(s.programs[i..]) == start + ProgramsBytes(s.programs)
    {
      assert s.programs[i..][0] == s.programs[i] && s.programs[i..][1..] == s.programs[i + 1..];
      ghost var before := out;
      out := WriteProgram(out, s.programs[i]);
      assert out + ProgramsBytes(s.programs[i + 1..]) ==
        before + (ProgramBytes(s.programs[i]) + ProgramsBytes(s.programs[i + 1..]));
    }
    assert s.programs[|s.programs|..] == [];
    assert out + [] == out;
  }

  // ---- Reading ----

  // Some(progress), or none where reading fails.
  method RestoreTags(b: seq<bv8>, start: nat, n: nat, root: bool, scope: Scope, tally: Tally)
    returns (r: Option<Progress>)
    ensures r == RestoreRecords(b, start, n, root, scope, tally)
  {
    hide ReadRecord, KeyOf;
    var m, t, p := scope, tally, start;
    for i := 0 to n
      invariant RestoreRecords(b, p, n - i, root, m, t) == RestoreRecords(b, start, n, root, scope, tally)
    {
      var read := ReadRecord(b, p);
      if read.None? { return None; }
      var record, next := read.value.0, read.value.1;
      var key := KeyOf(root, record.name);
      if key !in m || m[key].tagType != record.tagType || |m[key].data| != |record.data| {
        t := t.(skipped := t.skipped + 1);
      } else {
        m := m[key := TagValue(record.tagType, record.data)];
        t := t.(restored := t.restored + 1);
      }
      p := next;
    }
    r := Some(Progress(m, t, p));
  }

  method SkipTags(b: seq<bv8>, start: nat, n: nat, tally: Tally) returns (r: Option<Progress>)
    ensures r == SkipRecords(b, start, n, tally)
  {
    hide ReadRecord;
    var t, p := tally, start;
    for i := 0 to n
      invariant SkipRecords(b, p, n - i, t) == SkipRecords(b, start, n, tally)
    {
      var read := ReadRecord(b, p);
      if read.None? { return None; }
      p := read.value.1;
      t := t.(skipped := t.skipped + 1);
    }
    r := Some(Progress(map[], t, p));
  }

  method LoadOneProgram(b: seq<bv8>, p: nat, db: Db, t: Tally) returns (r: Option<(Loaded, nat)>)
    ensures r == LoadProgram(b, p, db, t)
  {
    hide ReadString, RestoreRecords, SkipRecords, LowerName, U32;
    var name := ReadString(b, p);
    if name.None? || name.value.1 + 4 > |b| { return None; }
    var key, q, n := LowerName(name.value.0), name.value.1 + 4, U32(b, name.value.1);
    if key in db.programs {
      var done := RestoreTags(b, q, n, false, db.programs[key], t);
      if done.None? { return None; }
      r := Some((Loaded(db.(programs := db.programs[key := done.value.scope]), done.value.tally), done.value.next));
    } else {
      var done := SkipTags(b, q, n, t);
      if done.None? { return None; }
      r := Some((Loaded(db, done.value.tally), done.value.next));
    }
  }

  method LoadFrom(db: Db, b: seq<bv8>) returns (r: Option<Loaded>)
    ensures r == Load(db, b)
  {
    hide LoadProgram, RestoreRecords, U32;
    if |b| < 8 || b[..4] != HEADER[..4] || b[4] > 1 || 12 > |b| { return None; }
    var tags := RestoreTags(b, 12, U32(b, 8), true, db.controller, Tally(0, 0));
    if tags.None? || tags.value.next + 4 > |b| { return None; }
    var l := Loaded(db.(controller := tags.value.scope), tags.value.tally);
    var p: nat, n: nat := tags.value.next + 4, U32(b, tags.value.next);
    for i := 0 to n
      invariant LoadPrograms(b, p, n - i, l.db, l.tally) == Load(db, b)
    {
      var one := LoadOneProgram(b, p, l.db, l.tally);
      if one.None? { return None; }
      l, p := one.value.0, one.value.1;
    }
    r := Some(l);
  }
}
