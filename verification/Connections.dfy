// The connection manager, the safety validator table it drives, and the
// configuration id the supervisor stores: one state, moved by opens, closes and
// timeouts, each taken as one step.
module Connections {
  import opened Options

  // Connection serial number, originator vendor, originator serial number.
  datatype Triad = Triad(serial: nat, vendor: nat, originator: nat)

  // The configuration CRC is that of the safety segment it was opened with.
  datatype Connection = Connection(id: nat, triad: Triad, consumed: nat, produced: nat, safety: bool, sccrc: nat)

  // What the safety checks in front of the configuration check said, and the
  // configuration CRC of the segment.
  datatype SafetyPart = SafetyPart(refusal: Option<nat>, sccrc: nat)

  datatype OpenRequest = OpenRequest(triad: Triad, consumed: Option<nat>, produced: Option<nat>,
    safety: Option<SafetyPart>)

  datatype State = State(
    live: map<nat, Connection>, last: nat,
    instances: map<nat, nat>, byConnection: map<nat, nat>, lastInstance: nat,
    scid: nat, removed: seq<nat>)

  function Fresh(): State { State(map[], 0, map[], map[], 0, 0, []) }

  const ID_LIMIT: nat := 0x1_0000_0000

  // ---- Forward Open ----

  datatype Answer = Opened(id: nat) | Closed | Refused(status: nat) | NotEnoughData

  function Given(x: Option<nat>): nat { if x.Some? then x.value else 0 }

  predicate Missing(x: Option<nat>, assemblies: set<nat>) { x.Some? && x.value !in assemblies }

  ghost predicate InUse(live: map<nat, Connection>, t: Triad) { exists id :: id in live && live[id].triad == t }

  // The first check that fails decides the answer.
  ghost function OpenAnswer(s: State, r: OpenRequest, assemblies: set<nat>): Answer {
    if r.safety.Some? && r.safety.value.refusal.Some? then Refused(r.safety.value.refusal.value)
    else if r.safety.Some? && s.scid != 0 && r.safety.value.sccrc != 0 && r.safety.value.sccrc != s.scid then
      Refused(0x0111)
    else if Missing(r.consumed, assemblies) || Missing(r.produced, assemblies) then Refused(0x0116)
    else if r.consumed.Some? && r.produced.Some? && r.consumed == r.produced then Refused(0x0116)
    else if InUse(s.live, r.triad) then Refused(0x0100)
    else Opened((s.last + 1) % ID_LIMIT)
  }

  function SccrcOf(r: OpenRequest): nat { if r.safety.Some? then r.safety.value.sccrc else 0 }

  function Admit(s: State, r: OpenRequest): State {
    var id := (s.last + 1) % ID_LIMIT;
    var c := Connection(id, r.triad, Given(r.consumed), Given(r.produced), r.safety.Some?, SccrcOf(r));
    var t := s.(last := id, live := s.live[id := c]);
    if r.safety.None? then t
    else
      var i := (s.lastInstance + 1) % ID_LIMIT;
      t.(scid := r.safety.value.sccrc, lastInstance := i,
         instances := s.instances[i := id], byConnection := s.byConnection[id := i])
  }

  ghost function Open(s: State, r: OpenRequest, assemblies: set<nat>): State {
    if OpenAnswer(s, r, assemblies).Opened? then Admit(s, r) else s
  }

  // ---- Removal ----

  predicate SafetyLeft(live: map<nat, Connection>) { exists id :: id in live && live[id].safety }

  // The callback that every removal fires.
  function Forget(s: State, c: Connection): State {
    var t := s.(removed := s.removed + [c.id]);
    if !c.safety then t
    else
      var u := if c.id in t.byConnection
        then t.(instances := t.instances - {t.byConnection[c.id]}, byConnection := t.byConnection - {c.id})
        else t;
      if SafetyLeft(u.live) then u else u.(scid := 0)
  }

  function Remove(s: State, c: Connection): State { Forget(s.(live := s.live - {c.id}), c) }

  ghost function Close(s: State, t: Triad): State {
    if !InUse(s.live, t) then s
    else
      var id :| id in s.live && s.live[id].triad == t;
      Remove(s, s.live[id])
  }

  // ---- What every step keeps ----

  ghost predicate KeysAreIds(s: State) { forall k :: k in s.live ==> s.live[k].id == k && 1 <= k <= s.last }

  ghost predicate TriadsDistinct(s: State) {
    forall j, k :: j in s.live && k in s.live && s.live[j].triad == s.live[k].triad ==> j == k
  }

  // The two validator maps are inverse to each other, and their connections are
  // the live safety connections.
  ghost predicate ValidatorMatches(s: State) { Matches(s.live, s.byConnection, s.instances, s.lastInstance) }

  ghost predicate Matches(live: map<nat, Connection>, byConnection: map<nat, nat>, instances: map<nat, nat>,
    last: nat) {
    && (forall c :: c in byConnection <==> c in live && live[c].safety)
    && (forall c :: c in byConnection ==> byConnection[c] in instances && instances[byConnection[c]] == c)
    && (forall i :: i in instances ==> i <= last && instances[i] in byConnection && byConnection[instances[i]] == i)
  }

  ghost predicate ScidCleared(s: State) { !SafetyLeft(s.live) ==> s.scid == 0 }

  // Every connection ever established is live or was removed, and not both.
  ghost predicate AllAccounted(s: State) {
    && (forall id :: 1 <= id <= s.last ==> id in s.live || id in s.removed)
    && (forall id :: id in s.removed ==> 1 <= id <= s.last && id !in s.live)
  }

  ghost predicate Sound(s: State) {
    KeysAreIds(s) && TriadsDistinct(s) && ValidatorMatches(s) && ScidCleared(s) && AllAccounted(s)
  }

  ghost predicate NoneTwice(s: seq<nat>) { forall i, j :: 0 <= i < j < |s| ==> s[i] != s[j] }

  lemma AdmitKeys(s: State, r: OpenRequest)
    requires KeysAreIds(s) && s.last + 1 < ID_LIMIT
    ensures KeysAreIds(Admit(s, r))
  {}

  lemma AdmitTriads(s: State, r: OpenRequest)
    requires KeysAreIds(s) && TriadsDistinct(s) && !InUse(s.live, r.triad) && s.last + 1 < ID_LIMIT
    ensures TriadsDistinct(Admit(s, r))
  {
    var live, id := Admit(s, r).live, s.last + 1;
    forall j, k | j in live && k in live && live[j].triad == live[k].triad
      ensures j == k
    {
      if j != id { assert j in s.live && live[j] == s.live[j]; }
      if k != id { assert k in s.live && live[k] == s.live[k]; }
    }
  }

  lemma MatchesWith(live: map<nat, Connection>, rev: map<nat, nat>, inst: map<nat, nat>, last: nat, id: nat,
    c: Connection)
    requires Matches(live, rev, inst, last) && id !in live
    ensures
      if c.safety then Matches(live[id := c], rev[id := last + 1], inst[last + 1 := id], last + 1)
      else Matches(live[id := c], rev, inst, last)
  {}

  lemma AdmitValidator(s: State, r: OpenRequest)
    requires KeysAreIds(s) && ValidatorMatches(s) && s.last + 1 < ID_LIMIT && s.lastInstance + 1 < ID_LIMIT
    ensures ValidatorMatches(Admit(s, r))
  {
    hide Matches;
    var id := s.last + 1;
    MatchesWith(s.live, s.byConnection, s.instances, s.lastInstance, id,
                Connection(id, r.triad, Given(r.consumed), Given(r.produced), r.safety.Some?, SccrcOf(r)));
  }

  lemma AdmitScid(s: State, r: OpenRequest)
    requires KeysAreIds(s) && ScidCleared(s) && s.last + 1 < ID_LIMIT
    ensures ScidCleared(Admit(s, r))
  {
    var live, id := Admit(s, r).live, s.last + 1;
    if r.safety.Some? {
      assert id in live && live[id].safety;
    } else if SafetyLeft(s.live) {
      var k :| k in s.live && s.live[k].safety;
      assert k in live && live[k].safety;
    }
  }

  lemma AdmitAccounted(s: State, r: OpenRequest)
    requires KeysAreIds(s) && AllAccounted(s) && s.last + 1 < ID_LIMIT
    ensures AllAccounted(Admit(s, r))
  {
    var t, id := Admit(s, r), s.last + 1;
    assert t.live.Keys == s.live.Keys + {id} && t.removed == s.removed && t.last == id;
  }

  // While ids last, an open keeps everything.
  lemma AdmitSound(s: State, r: OpenRequest)
    requires Sound(s) && !InUse(s.live, r.triad) && s.last + 1 < ID_LIMIT && s.lastInstance + 1 < ID_LIMIT
    ensures Sound(Admit(s, r))
  {
    hide KeysAreIds, TriadsDistinct, ValidatorMatches, ScidCleared, AllAccounted, Admit;
    AdmitKeys(s, r);
    AdmitTriads(s, r);
    AdmitValidator(s, r);
    AdmitScid(s, r);
    AdmitAccounted(s, r);
  }

  lemma RemoveValidator(s: State, c: Connection)
    requires KeysAreIds(s) && ValidatorMatches(s) && c.id in s.live && s.live[c.id] == c
    ensures ValidatorMatches(Remove(s, c))
  {
    var t := Remove(s, c);
    if c.safety {
      var i := s.byConnection[c.id];
      assert t.instances == s.instances - {i} && t.byConnection == s.byConnection - {c.id};
      assert forall j :: j in t.instances ==> t.instances[j] == s.instances[j] && t.instances[j] != c.id;
    } else {
      assert t.instances == s.instances && t.byConnection == s.byConnection;
    }
  }

  lemma RemoveScid(s: State, c: Connection)
    requires ScidCleared(s) && c.id in s.live && s.live[c.id] == c
    ensures ScidCleared(Remove(s, c))
  {
    var live := s.live - {c.id};
    if !c.safety && SafetyLeft(s.live) {
      var k :| k in s.live && s.live[k].safety;
      assert k in live && live[k].safety;
    }
  }

  lemma RemoveAccounted(s: State, c: Connection)
    requires KeysAreIds(s) && AllAccounted(s) && c.id in s.live && s.live[c.id] == c
    ensures AllAccounted(Remove(s, c))
  {
    var t := Remove(s, c);
    assert t.removed == s.removed + [c.id] && t.live == s.live - {c.id} && t.last == s.last;
  }

  // So does the removal of a live connection.
  lemma RemoveSound(s: State, c: Connection)
    requires Sound(s) && c.id in s.live && s.live[c.id] == c
    ensures Sound(Remove(s, c))
  {
    RemoveValidator(s, c);
    RemoveScid(s, c);
    RemoveAccounted(s, c);
    var t := Remove(s, c);
    assert t.live == s.live - {c.id} && t.last == s.last;
  }

  // A worker that still holds a connection may time it out after it has gone.
  // Nothing is left to change then, but the callbacks fire once more.
  lemma StaleRemoveSound(s: State, c: Connection)
    requires Sound(s) && c.id in s.removed
    ensures Sound(Remove(s, c)) && Remove(s, c) == s.(removed := s.removed + [c.id])
  {
    assert s.live - {c.id} == s.live;
    assert c.id !in s.byConnection;
    var t := s.(removed := s.removed + [c.id]);
    assert Remove(s, c) == t;
  }

  // ---- Runs ----

  datatype Event = OpenEvent(request: OpenRequest) | CloseEvent(triad: Triad) | TimeoutEvent(connection: Connection)

  predicate Live(s: State, c: Connection) { c.id in s.live && s.live[c.id] == c }

  ghost function Step(s: State, e: Event, assemblies: set<nat>): State {
    match e
    case OpenEvent(r) => Open(s, r, assemblies)
    case CloseEvent(t) => Close(s, t)
    case TimeoutEvent(c) => if Live(s, c) || c.id in s.removed then Remove(s, c) else s
  }

  ghost function Run(s: State, es: seq<Event>, assemblies: set<nat>): State
    decreases |es|
  {
    if es == [] then s else Run(Step(s, es[0], assemblies), es[1..], assemblies)
  }

  predicate RoomFor(s: State, n: nat) { s.last + n < ID_LIMIT && s.lastInstance + n < ID_LIMIT }

  lemma StepSound(s: State, e: Event, assemblies: set<nat>)
    requires Sound(s) && RoomFor(s, 1)
    ensures Sound(Step(s, e, assemblies))
    ensures Step(s, e, assemblies).last <= s.last + 1 && Step(s, e, assemblies).lastInstance <= s.lastInstance + 1
  {
    hide Sound;
    match e
    case OpenEvent(r) =>
      if OpenAnswer(s, r, assemblies).Opened? { AdmitSound(s, r); }
    case CloseEvent(t) =>
      if InUse(s.live, t) {
        KeyIsId(s, t);
        RemoveSound(s, CloseTarget(s, t));
      }
    case TimeoutEvent(c) =>
      if Live(s, c) { RemoveSound(s, c); } else if c.id in s.removed { StaleRemoveSound(s, c); }
  }

  // The connection a close finds.
  ghost function CloseTarget(s: State, t: Triad): Connection
    requires InUse(s.live, t)
  {
    var id :| id in s.live && s.live[id].triad == t;
    s.live[id]
  }

  // It is the only one there is.
  lemma KeyIsId(s: State, t: Triad)
    requires Sound(s) && InUse(s.live, t)
    ensures Live(s, CloseTarget(s, t)) && CloseTarget(s, t).triad == t && Close(s, t) == Remove(s, CloseTarget(s, t))
    ensures forall k :: k in s.live && s.live[k].triad == t ==> k == CloseTarget(s, t).id
  {}

  // Over every run of fewer than 2^32 events.
  lemma {:induction false} RunSound(s: State, es: seq<Event>, assemblies: set<nat>)
    requires Sound(s) && RoomFor(s, |es|)
    ensures Sound(Run(s, es, assemblies))
    decreases |es|
  {
    hide Sound, Step;
    if es != [] {
      StepSound(s, es[0], assemblies);
      RunSound(Step(s, es[0], assemblies), es[1..], assemblies);
    }
  }

  lemma FreshSound()
    ensures Sound(Fresh())
  {}

  // A connection that was established once and is not in the map any more.
  predicate Gone(s: State, c: Connection) { 1 <= c.id <= s.last && c.id !in s.live }

  // Every timeout finds its connection still in the map.
  ghost predicate Prompt(s: State, es: seq<Event>, assemblies: set<nat>)
    decreases |es|
  {
    es == [] ||
    ((es[0].TimeoutEvent? ==> !Gone(s, es[0].connection)) && Prompt(Step(s, es[0], assemblies), es[1..], assemblies))
  }

  lemma GoneIsRemoved(s: State, c: Connection)
    requires Sound(s)
    ensures Gone(s, c) <==> c.id in s.removed
  {}

  lemma TwiceIsSeen(s: seq<nat>, x: nat)
    requires NoneTwice(s)
    ensures NoneTwice(s + [x]) <==> x !in s
  {
    if x in s {
      var k :| 0 <= k < |s| && s[k] == x;
      assert (s + [x])[k] == (s + [x])[|s|];
    }
  }

  lemma RemoveAppends(s: State, c: Connection)
    ensures Remove(s, c).removed == s.removed + [c.id]
  {}

  lemma StepRemoves(s: State, e: Event, assemblies: set<nat>)
    requires Sound(s) && NoneTwice(s.removed)
    ensures s.removed <= Step(s, e, assemblies).removed
    ensures NoneTwice(Step(s, e, assemblies).removed) <==> !(e.TimeoutEvent? && Gone(s, e.connection))
  {
    hide Sound, NoneTwice, OpenAnswer, Remove;
    match e
    case OpenEvent(r) =>
    case CloseEvent(t) =>
      if InUse(s.live, t) {
        var c := CloseTarget(s, t);
        KeyIsId(s, t);
        RemoveAppends(s, c);
        TwiceIsSeen(s.removed, c.id);
        GoneIsRemoved(s, c);
      }
    case TimeoutEvent(c) =>
      GoneIsRemoved(s, c);
      RemoveAppends(s, c);
      TwiceIsSeen(s.removed, c.id);
  }

  lemma {:induction false} RemovedGrows(s: State, es: seq<Event>, assemblies: set<nat>)
    ensures s.removed <= Run(s, es, assemblies).removed
    decreases |es|
  {
    if es != [] {
      RemovedGrows(Step(s, es[0], assemblies), es[1..], assemblies);
    }
  }

  lemma TwiceStays(a: seq<nat>, b: seq<nat>)
    requires a <= b && NoneTwice(b)
    ensures NoneTwice(a)
  {
    assert forall i :: 0 <= i < |a| ==> a[i] == b[i];
  }

  // The removal callbacks fire at most once for every connection, on every run
  // in which no timeout comes too late, and on no other.
  lemma {:induction false} RemovedOnceExact(s: State, es: seq<Event>, assemblies: set<nat>)
    requires Sound(s) && NoneTwice(s.removed) && RoomFor(s, |es|)
    ensures NoneTwice(Run(s, es, assemblies).removed) <==> Prompt(s, es, assemblies)
    decreases |es|
  {
    hide Sound, Step, NoneTwice;
    if es != [] {
      var t := Step(s, es[0], assemblies);
      StepSound(s, es[0], assemblies);
      StepRemoves(s, es[0], assemblies);
      if NoneTwice(t.removed) {
        RemovedOnceExact(t, es[1..], assemblies);
      } else {
        RemovedGrows(t, es[1..], assemblies);
        if NoneTwice(Run(t, es[1..], assemblies).removed) {
          TwiceStays(t.removed, Run(t, es[1..], assemblies).removed);
        }
      }
    }
  }

  // All of it, from the start.
  lemma EveryRun(es: seq<Event>, assemblies: set<nat>)
    requires |es| < ID_LIMIT
    ensures var s := Run(Fresh(), es, assemblies);
      Sound(s) && (NoneTwice(s.removed) <==> Prompt(Fresh(), es, assemblies))
  {
    FreshSound();
    RunSound(Fresh(), es, assemblies);
    RemovedOnceExact(Fresh(), es, assemblies);
  }

  // ---- A timeout that comes too late ----

  function PlainRequest(t: Triad): OpenRequest { OpenRequest(t, None, None, None) }

  // A connection is opened and closed, and the worker that had just found it
  // established times it out: the callbacks fire twice for it.
  lemma LateTimeout(t: Triad, assemblies: set<nat>)
    ensures
      var c := Connection(1, t, 0, 0, false, 0);
      var es := [OpenEvent(PlainRequest(t)), CloseEvent(t), TimeoutEvent(c)];
      Run(Fresh(), es, assemblies).removed == [1, 1] && !Prompt(Fresh(), es, assemblies)
  {
    var c := Connection(1, t, 0, 0, false, 0);
    var es := [OpenEvent(PlainRequest(t)), CloseEvent(t), TimeoutEvent(c)];
    FreshSound();
    var s1 := Step(Fresh(), es[0], assemblies);
    StepSound(Fresh(), es[0], assemblies);
    assert s1.live == map[1 := c] && s1.live[1].triad == t && InUse(s1.live, t);
    KeyIsId(s1, t);
    var s2 := Step(s1, es[1], assemblies);
    StepSound(s1, es[1], assemblies);
    assert s2 == Remove(s1, c) && s2.removed == [1] && Gone(s2, c);
    var s3 := Step(s2, es[2], assemblies);
    assert s3.removed == [1, 1];
    OneEvent(Fresh(), es, assemblies);
    OneEvent(s1, es[1..], assemblies);
    OneEvent(s2, es[2..], assemblies);
  }

  lemma OneEvent(s: State, es: seq<Event>, assemblies: set<nat>)
    requires es != []
    ensures Run(s, es, assemblies) == Run(Step(s, es[0], assemblies), es[1..], assemblies)
    ensures Prompt(s, es, assemblies) ==> Prompt(Step(s, es[0], assemblies), es[1..], assemblies)
  {}

  // ---- One configuration among the safety connections ----

  // The live safety connections agree on their configuration CRC.
  ghost predicate Agreed(s: State) {
    forall j, k :: j in s.live && k in s.live && s.live[j].safety && s.live[k].safety ==>
      s.live[j].sccrc == s.live[k].sccrc
  }

  // And the stored one is theirs.
  ghost predicate StoredIsTheirs(s: State) { forall k :: k in s.live && s.live[k].safety ==> s.live[k].sccrc == s.scid }

  // Beside other safety connections, a safety open carries what is stored, where
  // the check of the source lets a zero on either side pass.
  predicate Matching(s: State, e: Event) {
    e.OpenEvent? && e.request.safety.Some? && SafetyLeft(s.live) ==> e.request.safety.value.sccrc == s.scid
  }

  ghost predicate Admitted(s: State, e: Event, assemblies: set<nat>) {
    e.OpenEvent? && OpenAnswer(s, e.request, assemblies).Opened?
  }

  ghost predicate AgreedThroughout(s: State, es: seq<Event>, assemblies: set<nat>)
    decreases |es|
  {
    Agreed(s) && (es == [] || AgreedThroughout(Step(s, es[0], assemblies), es[1..], assemblies))
  }

  ghost predicate MatchingThroughout(s: State, es: seq<Event>, assemblies: set<nat>)
    decreases |es|
  {
    es == [] ||
    ((Admitted(s, es[0], assemblies) ==> Matching(s, es[0])) &&
     MatchingThroughout(Step(s, es[0], assemblies), es[1..], assemblies))
  }

  lemma RemoveKeepsStored(s: State, c: Connection)
    requires StoredIsTheirs(s)
    ensures StoredIsTheirs(Remove(s, c))
  {}

  lemma AdmitAgreement(s: State, r: OpenRequest)
    requires Sound(s) && StoredIsTheirs(s) && s.last + 1 < ID_LIMIT
    ensures
      var matching := r.safety.Some? && SafetyLeft(s.live) ==> r.safety.value.sccrc == s.scid;
      (matching ==> StoredIsTheirs(Admit(s, r))) && (Agreed(Admit(s, r)) <==> matching)
  {
    var t := Admit(s, r);
    assert t.live[t.last].sccrc == SccrcOf(r) && t.live[t.last].safety == r.safety.Some?;
    if r.safety.Some? && SafetyLeft(s.live) {
      var k :| k in s.live && s.live[k].safety;
      assert t.live[k] == s.live[k];
    }
  }

  lemma StepAgreement(s: State, e: Event, assemblies: set<nat>)
    requires Sound(s) && StoredIsTheirs(s) && RoomFor(s, 1)
    ensures
      var matching := Admitted(s, e, assemblies) ==> Matching(s, e);
      (matching ==> StoredIsTheirs(Step(s, e, assemblies))) && (Agreed(Step(s, e, assemblies)) <==> matching)
  {
    hide Sound, Admit, Remove, OpenAnswer;
    match e
    case OpenEvent(r) =>
      if OpenAnswer(s, r, assemblies).Opened? { AdmitAgreement(s, r); }
    case CloseEvent(t) =>
      if InUse(s.live, t) {
        KeyIsId(s, t);
        RemoveKeepsStored(s, CloseTarget(s, t));
      }
    case TimeoutEvent(c) =>
      RemoveKeepsStored(s, c);
  }

  // On every run the safety connections agree at every moment if and only if each
  // safety open admitted beside another carried the stored configuration CRC.
  lemma {:induction false} AgreementExact(s: State, es: seq<Event>, assemblies: set<nat>)
    requires Sound(s) && StoredIsTheirs(s) && RoomFor(s, |es|)
    ensures AgreedThroughout(s, es, assemblies) <==> MatchingThroughout(s, es, assemblies)
    decreases |es|
  {
    hide Sound, Step, Admitted, Matching;
    if es != [] {
      StepSound(s, es[0], assemblies);
      StepAgreement(s, es[0], assemblies);
      if Admitted(s, es[0], assemblies) ==> Matching(s, es[0]) {
        AgreementExact(Step(s, es[0], assemblies), es[1..], assemblies);
      }
    }
  }

  // With configuration CRCs that are not zero the check of the source is enough.
  ghost predicate NoneZero(es: seq<Event>) {
    forall e :: e in es && e.OpenEvent? && e.request.safety.Some? ==> e.request.safety.value.sccrc != 0
  }

  ghost predicate LiveNotZero(s: State) { forall k :: k in s.live && s.live[k].safety ==> s.live[k].sccrc != 0 }

  lemma {:induction false} NoneZeroMatches(s: State, es: seq<Event>, assemblies: set<nat>)
    requires Sound(s) && StoredIsTheirs(s) && LiveNotZero(s) && NoneZero(es) && RoomFor(s, |es|)
    ensures MatchingThroughout(s, es, assemblies)
    decreases |es|
  {
    hide Sound, OpenAnswer;
    if es != [] {
      var e := es[0];
      assert e in es;
      StepSound(s, e, assemblies);
      StepAgreement(s, e, assemblies);
      CheckMatches(s, e, assemblies);
      StepNotZero(s, e, assemblies);
      NoneZeroMatches(Step(s, e, assemblies), es[1..], assemblies);
    }
  }

  // So on a run from the start with no zero among them they always agree.
  lemma NonzeroRunsAgree(es: seq<Event>, assemblies: set<nat>)
    requires NoneZero(es) && |es| < ID_LIMIT
    ensures AgreedThroughout(Fresh(), es, assemblies)
  {
    FreshSound();
    NoneZeroMatches(Fresh(), es, assemblies);
    AgreementExact(Fresh(), es, assemblies);
  }

  lemma CheckMatches(s: State, e: Event, assemblies: set<nat>)
    requires StoredIsTheirs(s) && LiveNotZero(s) && NoneZero([e])
    ensures Admitted(s, e, assemblies) ==> Matching(s, e)
  {
    if e.OpenEvent? && SafetyLeft(s.live) {
      var k :| k in s.live && s.live[k].safety;
      assert s.scid != 0 && e in [e];
    }
  }

  lemma StepNotZero(s: State, e: Event, assemblies: set<nat>)
    requires Sound(s) && LiveNotZero(s) && NoneZero([e])
    ensures LiveNotZero(Step(s, e, assemblies))
  {
    hide Sound, OpenAnswer;
    assert e in [e];
    if e.CloseEvent? && InUse(s.live, e.triad) {
      KeyIsId(s, e.triad);
    }
  }

  lemma SafetyAdmitted(s: State, serial: nat, sccrc: nat, assemblies: set<nat>)
    requires s.scid == 0 || sccrc == 0 || sccrc == s.scid
    requires s.last + 1 < ID_LIMIT && forall k :: k in s.live ==> s.live[k].triad.serial != serial
    ensures var t := Step(s, SafetyOpen(serial, sccrc), assemblies);
      t.live == s.live[s.last + 1 := Connection(s.last + 1, Triad(serial, 0, 0), 0, 0, true, sccrc)] &&
      t.scid == sccrc && t.last == s.last + 1
  {}

  // With a zero among them it is not: opens with 5, 0 and 7 are all admitted.
  lemma ZeroBreaksAgreement(assemblies: set<nat>)
    ensures
      var es := [SafetyOpen(1, 5), SafetyOpen(2, 0), SafetyOpen(3, 7)];
      var s := Run(Fresh(), es, assemblies);
      s.live.Keys == {1, 2, 3} && s.live[1].sccrc == 5 && s.live[3].sccrc == 7 &&
        !AgreedThroughout(Fresh(), es, assemblies)
  {
    hide Step;
    var es := [SafetyOpen(1, 5), SafetyOpen(2, 0), SafetyOpen(3, 7)];
    var s1 := Step(Fresh(), es[0], assemblies);
    SafetyAdmitted(Fresh(), 1, 5, assemblies);
    var s2 := Step(s1, es[1], assemblies);
    SafetyAdmitted(s1, 2, 0, assemblies);
    SafetyAdmitted(s2, 3, 7, assemblies);
    OneEvent(Fresh(), es, assemblies);
    OneEvent(s1, es[1..], assemblies);
    OneEvent(s2, es[2..], assemblies);
    assert s2.live[1].sccrc == 5 && s2.live[2].sccrc == 0 && s2.live[1].safety && s2.live[2].safety;
    assert !Agreed(s2);
  }

  function SafetyOpen(serial: nat, sccrc: nat): Event {
    OpenEvent(OpenRequest(Triad(serial, 0, 0), None, None, Some(SafetyPart(None, sccrc))))
  }
}
