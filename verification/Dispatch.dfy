// Packets inside packets: Multiple_Service_Packet and Unconnected_Send unwrap
// what they carry and dispatch again, under one counter they share.
module Dispatch {
  import opened Options
  import opened TagServices
  import opened Sequences
  import opened MultiService
  import opened Numbers

  datatype Target = Multi | Unconnected | Plain

  const MAX_DEPTH: nat := 3

  // The message carried by an Unconnected_Send.
  function Embedded(d: seq<bv8>): (r: Option<seq<bv8>>)
    ensures r.Some? ==> |r.value| + 4 <= |d|
  {
    if |d| < 4 then None
    else
      var n := U16(d, 2);
      if 4 + n > |d| then None else Some(d[4..4 + n])
  }

  predicate Smaller(parts: seq<seq<bv8>>, n: nat) { forall i :: 0 <= i < |parts| ==> |parts[i]| <= n }

  lemma SplitSmaller(d: seq<bv8>)
    requires Split(d).Some?
    ensures Smaller(Split(d).value, |d| - 2)
  {}

  // ---- What a request is answered, and by how many dispatches ----

  datatype Outcome = Outcome(response: Response, dispatches: nat)

  function Dispatched(target: Request -> Target, plain: Request -> Response, r: Request, depth: nat): Outcome
    decreases |r.data|, 1, 0
  {
    match target(r)
    case Plain => Outcome(plain(r), 1)
    case Multi =>
      if depth >= MAX_DEPTH then Outcome(ErrorResponse(r.service, SERVICE_NOT_SUPPORTED), 1)
      else
        var parts := Split(r.data);
        if parts.None? then Outcome(ErrorResponse(r.service, 0x13), 1)
        else
          SplitSmaller(r.data);
          var (replies, n) := Answers(target, plain, parts.value, |r.data|, depth + 1);
          Outcome(Response(Replied(r.service), 0, [], Pack(replies)), 1 + n)
    case Unconnected =>
      if depth >= MAX_DEPTH then Outcome(ErrorResponse(r.service, SERVICE_NOT_SUPPORTED), 1)
      else
        var e := Embedded(r.data);
        if e.None? then Outcome(ErrorResponse(r.service, 0x13), 1)
        else
          var inner := ParseMr(e.value);
          if inner.None? then Outcome(ErrorResponse(r.service, 0x04), 1)
          else
            var o := Dispatched(target, plain, inner.value, depth + 1);
            Outcome(o.response, 1 + o.dispatches)
  }

  function Answers(target: Request -> Target, plain: Request -> Response, parts: seq<seq<bv8>>, n: nat, depth: nat)
    : (r: (seq<seq<bv8>>, nat))
    requires Smaller(parts, n)
    ensures |r.0| == |parts|
    decreases n, 0, |parts|
  {
    if parts == [] then ([], 0)
    else
      var first := ParseMr(parts[0]);
      var o := if first.None? then Outcome(ErrorResponse(0, 0x13), 0)
        else Dispatched(target, plain, first.value, depth);
      var (rest, k) := Answers(target, plain, parts[1..], n, depth);
      ([EncodeResponse(Fitted(o.response))] + rest, o.dispatches + k)
  }

  // ---- The number of dispatches ----

  lemma {:induction false} ConcatOfSlices(d: seq<bv8>, t: seq<nat>, i: nat)
    requires TableOk(d, t) && i < |t|
    ensures |Concat(Slices(d, t)[i..])| == |d| - t[i]
    decreases |t| - i
  {
    hide TableEnd;
    var parts := Slices(d, t);
    assert parts[i..][0] == parts[i] && parts[i..][1..] == parts[i + 1..];
    if i + 1 < |t| {
      ConcatOfSlices(d, t, i + 1);
    } else {
      assert parts[i + 1..] == [];
    }
  }

  lemma SplitTotal(d: seq<bv8>)
    requires Split(d).Some?
    ensures |Concat(Split(d).value)| <= |d| - 2
  {
    var parts := Split(d).value;
    if parts != [] {
      var t := Table(d, 0, U16(d, 0));
      ConcatOfSlices(d, t, 0);
      assert parts[0..] == parts;
    }
  }

  // However packets are nested, a request makes at most one dispatch for every
  // two bytes it carries, and one for itself.
  lemma {:induction false} DispatchesLinear(target: Request -> Target, plain: Request -> Response, r: Request,
    depth: nat)
    ensures 2 * Dispatched(target, plain, r, depth).dispatches <= |r.data| + 2
    decreases |r.data|, 1, 0
  {
    hide Split, EncodeResponse, Fitted, Pack, Embedded;
    if target(r) == Multi && depth < MAX_DEPTH && Split(r.data).Some? {
      SplitSmaller(r.data);
      SplitTotal(r.data);
      AnswersLinear(target, plain, Split(r.data).value, |r.data|, depth + 1);
    } else if target(r) == Unconnected && depth < MAX_DEPTH && Embedded(r.data).Some? &&
      ParseMr(Embedded(r.data).value).Some? {
      DispatchesLinear(target, plain, ParseMr(Embedded(r.data).value).value, depth + 1);
    }
  }

  lemma {:induction false} AnswersLinear(target: Request -> Target, plain: Request -> Response, parts: seq<seq<bv8>>,
    n: nat, depth: nat)
    requires Smaller(parts, n)
    ensures 2 * Answers(target, plain, parts, n, depth).1 <= |Concat(parts)|
    decreases n, 0, |parts|
  {
    hide EncodeResponse, Fitted;
    if parts != [] {
      if ParseMr(parts[0]).Some? {
        DispatchesLinear(target, plain, ParseMr(parts[0]).value, depth);
      }
      AnswersLinear(target, plain, parts[1..], n, depth);
    }
  }

  // ---- What unwrapping answers ----

  // An Unconnected_Send of a request: two timing bytes, its length, itself, and a
  // route behind it.
  function Sending(priority: bv8, ticks: bv8, r: Request, route: seq<bv8>): seq<bv8> {
    [priority, ticks] + Out16(|EncodeMr(r)|) + EncodeMr(r) + route
  }

  predicate Sendable(r: Request) { PathOk(r) && |EncodeMr(r)| < 0x1_0000 }

  lemma EmbeddedRead(priority: bv8, ticks: bv8, r: Request, route: seq<bv8>)
    requires Sendable(r)
    ensures Embedded(Sending(priority, ticks, r, route)) == Some(EncodeMr(r))
  {
    hide U16, Out16, EncodeMr, PathOk;
    var d, m := Sending(priority, ticks, r, route), EncodeMr(r);
    assert d[2..4] == Out16(|m|) && d[4..4 + |m|] == m;
    U16Out16(d, 2, |m|);
  }

  // It is answered as the request itself, one packet further in.
  lemma SentIsAnswered(
    target: Request -> Target, plain: Request -> Response, u: Request, priority: bv8, ticks: bv8, r: Request,
    route: seq<bv8>, depth: nat)
    requires target(u) == Unconnected && Sendable(r) && u.data == Sending(priority, ticks, r, route)
    ensures
      Dispatched(target, plain, u, depth).response ==
      if depth >= MAX_DEPTH then ErrorResponse(u.service, SERVICE_NOT_SUPPORTED)
      else Dispatched(target, plain, r, depth + 1).response
  {
    hide Embedded, Sending, EncodeMr, ParseMr, PathOk, Split, EncodeResponse, Pack;
    EmbeddedRead(priority, ticks, r, route);
    MrRoundTrip(r);
  }

  // One that ends inside what it carries is refused.
  lemma CutSendRefused(target: Request -> Target, plain: Request -> Response, u: Request, depth: nat, priority: bv8,
    ticks: bv8, r: Request, route: seq<bv8>, k: nat)
    requires target(u) == Unconnected && depth < MAX_DEPTH && Sendable(r)
    requires k < 4 + |EncodeMr(r)| && u.data == Sending(priority, ticks, r, route)[..k]
    ensures Dispatched(target, plain, u, depth).response == Response(Replied(u.service), 0x13, [], [])
  {
    hide EncodeMr, Out16, U16;
    var d := Sending(priority, ticks, r, route);
    if k >= 4 {
      assert u.data[2..4] == Out16(|EncodeMr(r)|);
      U16Out16(u.data, 2, |EncodeMr(r)|);
    }
  }

  // So is one that carries no request, because its path is longer than what there is.
  lemma HollowSendRefused(target: Request -> Target, plain: Request -> Response, u: Request, depth: nat, priority: bv8,
    ticks: bv8, e: seq<bv8>, route: seq<bv8>)
    requires target(u) == Unconnected && depth < MAX_DEPTH && |e| < 0x1_0000
    requires |e| < 2 || |e| < 2 + 2 * Value(e[1])
    requires u.data == [priority, ticks] + Out16(|e|) + e + route
    ensures Dispatched(target, plain, u, depth).response == Response(Replied(u.service), 0x04, [], [])
  {
    hide Out16, U16;
    assert u.data[2..4] == Out16(|e|) && u.data[4..4 + |e|] == e;
    U16Out16(u.data, 2, |e|);
  }

  // And at the limit both services are.
  lemma LimitRefuses(target: Request -> Target, plain: Request -> Response, r: Request, depth: nat)
    requires target(r) != Plain && depth >= 3
    ensures Dispatched(target, plain, r, depth) == Outcome(Response(Replied(r.service), 0x08, [], []), 1)
  {}

  // One inside the other.
  function Wrapped(n: nat, r: Request, service: bv8, path: seq<bv8>): Request
    decreases n
  {
    if n == 0 then r else Request(service, path, Sending(0, 0, Wrapped(n - 1, r, service, path), []))
  }

  // As many as the counter leaves room for are unwrapped; with one more the
  // innermost is refused, and that refusal is the answer to all.
  lemma {:induction false} WrappedAnswered(
    target: Request -> Target, plain: Request -> Response, n: nat, r: Request, service: bv8, path: seq<bv8>,
    depth: nat)
    requires depth <= MAX_DEPTH && target(r) == Plain
    requires forall k :: 0 <= k < n ==> Sendable(Wrapped(k, r, service, path))
    requires forall k :: 0 < k <= n ==> target(Wrapped(k, r, service, path)) == Unconnected
    ensures Dispatched(target, plain, Wrapped(n, r, service, path), depth).response ==
      if n <= MAX_DEPTH - depth then plain(r) else ErrorResponse(service, SERVICE_NOT_SUPPORTED)
    decreases n
  {
    hide Sendable, Sending, Dispatched;
    if n == 0 {
      PlainAnswered(target, plain, r, depth);
    } else {
      SentIsAnswered(target, plain, Wrapped(n, r, service, path), 0, 0, Wrapped(n - 1, r, service, path), [], depth);
      if depth < MAX_DEPTH { WrappedAnswered(target, plain, n - 1, r, service, path, depth + 1); }
    }
  }

  lemma PlainAnswered(target: Request -> Target, plain: Request -> Response, r: Request, depth: nat)
    requires target(r) == Plain
    ensures Dispatched(target, plain, r, depth).response == plain(r)
  {}

  // The answer to what a packet carries.
  function Inside(target: Request -> Target, plain: Request -> Response, depth: nat): Request -> Response {
    r => Dispatched(target, plain, r, depth).response
  }

  lemma {:induction false} AnswersAreReplies(
    target: Request -> Target, plain: Request -> Response, parts: seq<seq<bv8>>, n: nat, depth: nat)
    requires Smaller(parts, n)
    ensures Answers(target, plain, parts, n, depth).0 == PartReplies(Inside(target, plain, depth), parts)
    decreases |parts|
  {
    hide EncodeResponse, Fitted, ParseMr, Dispatched;
    if parts != [] {
      AnswersAreReplies(target, plain, parts[1..], n, depth);
      var all := PartReplies(Inside(target, plain, depth), parts);
      assert all == [all[0]] + PartReplies(Inside(target, plain, depth), parts[1..]);
    }
  }

  // Below the limit a packet is answered as its handler answers it, with every part
  // dispatched one packet further in.
  lemma PacketIsHandled(target: Request -> Target, plain: Request -> Response, r: Request, depth: nat)
    requires target(r) == Multi
    ensures Dispatched(target, plain, r, depth).response ==
      if depth >= MAX_DEPTH then ErrorResponse(r.service, SERVICE_NOT_SUPPORTED)
      else HandlePacket(Inside(target, plain, depth + 1), r)
  {
    hide EncodeResponse, Fitted, ParseMr, Split, Answers, PartReplies, Pack, Inside;
    if depth < MAX_DEPTH && Split(r.data).Some? {
      SplitSmaller(r.data);
      AnswersAreReplies(target, plain, Split(r.data).value, |r.data|, depth + 1);
    }
  }

  // ---- The handlers and their shared counter ----

  class Dispatcher {
    const target: Request -> Target
    const plain: Request -> Response
    var depth: nat
    // The most packets that were ever open at once.
    ghost var deepest: nat

    constructor (t: Request -> Target, p: Request -> Response)
      ensures target == t && plain == p && depth == deepest == 0
    {
      target, plain, depth, deepest := t, p, 0, 0;
    }

    ghost predicate Bounded()
      reads this
    {
      depth <= deepest <= MAX_DEPTH
    }

    // One more packet is open.
    method Enter()
      requires depth < MAX_DEPTH && Bounded()
      modifies this
      ensures depth == old(depth) + 1 && deepest == (if old(deepest) < depth then depth else old(deepest)) && Bounded()
    {
      depth := depth + 1;
      if deepest < depth { deepest := depth; }
    }

    // Never more than three packets are open; when a request is answered the
    // counter is back where it was.
    method Run(r: Request) returns (response: Response, ghost dispatches: nat)
      requires Bounded()
      modifies this
      ensures depth == old(depth) && old(deepest) <= deepest && Bounded()
      ensures Outcome(response, dispatches) == Dispatched(target, plain, r, old(depth))
      decreases |r.data|, 1, 0
    {
      hide Split, EncodeResponse, Fitted, Pack, Embedded, ParseMr;
      match target(r)
      case Plain =>
        response, dispatches := plain(r), 1;
      case Multi =>
        response, dispatches := RunMulti(r);
      case Unconnected =>
        response, dispatches := RunUnconnected(r);
    }

    method RunMulti(r: Request) returns (response: Response, ghost dispatches: nat)
      requires Bounded() && target(r) == Multi
      modifies this
      ensures depth == old(depth) && old(deepest) <= deepest && Bounded()
      ensures Outcome(response, dispatches) == Dispatched(target, plain, r, old(depth))
      decreases |r.data|, 0, 1
    {
      hide Split, EncodeResponse, Fitted, Pack, Embedded, ParseMr, Answers;
      dispatches := 1;
      if depth >= MAX_DEPTH { return ErrorResponse(r.service, SERVICE_NOT_SUPPORTED), 1; }
      Enter();
      var parts := SplitPacket(r.data);
      if parts.None? {
        response := ErrorResponse(r.service, 0x13);
      } else {
        SplitSmaller(r.data);
        var replies, n := RunParts(parts.value, |r.data|);
        var packed := BuildPacket(replies);
        response, dispatches := Response(Replied(r.service), 0, [], packed[..]), 1 + n;
      }
      depth := depth - 1;
    }

    method RunUnconnected(r: Request) returns (response: Response, ghost dispatches: nat)
      requires Bounded() && target(r) == Unconnected
      modifies this
      ensures depth == old(depth) && old(deepest) <= deepest && Bounded()
      ensures Outcome(response, dispatches) == Dispatched(target, plain, r, old(depth))
      decreases |r.data|, 0, 1
    {
      hide Split, EncodeResponse, Fitted, Pack, Embedded, ParseMr;
      dispatches := 1;
      if depth >= MAX_DEPTH { return ErrorResponse(r.service, SERVICE_NOT_SUPPORTED), 1; }
      Enter();
      var embedded := Embedded(r.data);
      if embedded.None? {
        response := ErrorResponse(r.service, 0x13);
      } else {
        var inner := ParseMr(embedded.value);
        if inner.None? {
          response := ErrorResponse(r.service, 0x04);
        } else {
          ghost var n;
          response, n := Run(inner.value);
          dispatches := 1 + n;
        }
      }
      depth := depth - 1;
    }

    lemma NextAnswer(parts: seq<seq<bv8>>, i: nat, n: nat, d: nat)
      requires Smaller(parts, n) && i < |parts|
      ensures var first, rest := ParseMr(parts[i]), Answers(target, plain, parts[i + 1..], n, d);
        var o := if first.None? then Outcome(ErrorResponse(0, 0x13), 0) else Dispatched(target, plain, first.value, d);
        Answers(target, plain, parts[i..], n, d) ==
          ([EncodeResponse(Fitted(o.response))] + rest.0, o.dispatches + rest.1)
    {
      hide EncodeResponse, Fitted, ParseMr, Dispatched;
      assert parts[i..][0] == parts[i] && parts[i..][1..] == parts[i + 1..];
    }

    lemma NoMoreAnswers(parts: seq<seq<bv8>>, n: nat, d: nat)
      ensures Answers(target, plain, parts[|parts|..], n, d) == ([], 0)
    {}

    method RunParts(parts: seq<seq<bv8>>, n: nat) returns (replies: seq<seq<bv8>>, ghost dispatches: nat)
      requires Bounded() && Smaller(parts, n)
      modifies this
      ensures depth == old(depth) && old(deepest) <= deepest && Bounded()
      ensures (replies, dispatches) == Answers(target, plain, parts, n, old(depth))
      decreases n, 0, 0
    {
      hide EncodeResponse, Fitted, ParseMr, Dispatched, Answers;
      replies, dispatches := [], 0;
      ghost var all := Answers(target, plain, parts, n, depth);
      assert parts[0..] == parts && [] + all.0 == all.0;
      for i := 0 to |parts|
        invariant depth == old(depth) && old(deepest) <= deepest && Bounded()
        invariant replies + Answers(target, plain, parts[i..], n, depth).0 == all.0
        invariant dispatches + Answers(target, plain, parts[i..], n, depth).1 == all.1
      {
        NextAnswer(parts, i, n, depth);
        ghost var rest := Answers(target, plain, parts[i + 1..], n, depth).0;
        var request := ParseMr(parts[i]);
        var response;
        ghost var k := 0;
        if request.None? {
          response := ErrorResponse(0, 0x13);
        } else {
          response, k := Run(request.value);
        }
        assert replies + ([EncodeResponse(Fitted(response))] + rest) ==
          (replies + [EncodeResponse(Fitted(response))]) + rest;
        replies, dispatches := replies + [EncodeResponse(Fitted(response))], dispatches + k;
      }
      NoMoreAnswers(parts, n, depth);
      assert replies + [] == replies;
    }
  }
}
