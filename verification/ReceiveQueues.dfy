/** Receive requests and arriving messages of one connection meet in two queues (section 9.3.1 of
    RFC 9622).  A receive callback may itself ask for more messages. */
module ReceiveQueues {
  type Message = string

  /** A request and, in order, the requests its callback makes when it is given a message. */
  datatype Request = Request(context: nat, nested: seq<Request>)

  datatype Delivery = Delivery(message: Message, request: Request)

  datatype Queues = Queues(
    callbacks: seq<Request>,    // requests waiting for a message
    messages: seq<Message>,     // messages waiting for a request
    arrived: seq<Message>,      // everything the protocol delivered so far
    asked: seq<Request>,        // every call to receive so far
    delivered: seq<Delivery>)   // every callback made so far

  function Receive(q: Queues, r: Request): (q': Queues)
    decreases r, 1
  {
    var q1 := q.(asked := q.asked + [r]);
    if q.messages != [] then
      ReceiveAll(q1.(messages := q.messages[1..], delivered := q.delivered + [Delivery(q.messages[0], r)]), r.nested)
    else q1.(callbacks := q.callbacks + [r])
  }

  function ReceiveAll(q: Queues, rs: seq<Request>): (q': Queues)
    decreases rs, 0
  {
    if rs == [] then q else ReceiveAll(Receive(q, rs[0]), rs[1..])
  }

  function Arrive(q: Queues, m: Message): (q': Queues) {
    var q1 := q.(arrived := q.arrived + [m]);
    if q.callbacks == [] then q1.(messages := q.messages + [m])
    else ReceiveAll(q1.(callbacks := q.callbacks[1..], delivered := q.delivered + [Delivery(m, q.callbacks[0])]),
                    q.callbacks[0].nested)
  }

  /** The i-th message goes to the i-th request, and whatever is left over on one side waits. */
  predicate Paired(q: Queues) {
    var k := |q.delivered|;
    && k <= |q.arrived| && k <= |q.asked|
    && (forall i | 0 <= i < k :: q.delivered[i] == Delivery(q.arrived[i], q.asked[i]))
    && q.messages == q.arrived[k..]
    && q.callbacks == q.asked[k..]
    && (q.messages == [] || q.callbacks == [])
  }

  lemma {:induction false} ReceiveKeeps(q: Queues, r: Request)
    requires Paired(q)
    ensures Paired(Receive(q, r)) && Receive(q, r).arrived == q.arrived && q.asked + [r] <= Receive(q, r).asked
    decreases r, 1
  {
    if q.messages != [] {
      ReceiveAllKeeps(q.(asked := q.asked + [r], messages := q.messages[1..],
                         delivered := q.delivered + [Delivery(q.messages[0], r)]), r.nested);
    }
  }

  lemma {:induction false} ReceiveAllKeeps(q: Queues, rs: seq<Request>)
    requires Paired(q)
    ensures Paired(ReceiveAll(q, rs)) && ReceiveAll(q, rs).arrived == q.arrived && q.asked <= ReceiveAll(q, rs).asked
    decreases rs, 0
  {
    if rs != [] {
      ReceiveKeeps(q, rs[0]);
      ReceiveAllKeeps(Receive(q, rs[0]), rs[1..]);
    }
  }

  lemma ArriveKeeps(q: Queues, m: Message)
    requires Paired(q)
    ensures Paired(Arrive(q, m)) && Arrive(q, m).arrived == q.arrived + [m] && q.asked <= Arrive(q, m).asked
  {
    if q.callbacks != [] {
      ReceiveAllKeeps(q.(arrived := q.arrived + [m], callbacks := q.callbacks[1..],
                         delivered := q.delivered + [Delivery(m, q.callbacks[0])]), q.callbacks[0].nested);
    }
  }

  datatype Event = Arrives(message: Message) | Asks(request: Request)

  function Run(es: seq<Event>): (q: Queues) {
    if es == [] then Queues([], [], [], [], []) else Happens(Run(es[..|es| - 1]), es[|es| - 1])
  }

  function Arrivals(es: seq<Event>): (s: seq<Message>) {
    if es == [] then []
    else Arrivals(es[..|es| - 1]) + if es[|es| - 1].Arrives? then [es[|es| - 1].message] else []
  }

  function Zip(ms: seq<Message>, rs: seq<Request>): (s: seq<Delivery>) {
    if ms == [] || rs == [] then [] else [Delivery(ms[0], rs[0])] + Zip(ms[1..], rs[1..])
  }

  lemma {:induction false} ZipAt(ms: seq<Message>, rs: seq<Request>)
    ensures |Zip(ms, rs)| == if |ms| < |rs| then |ms| else |rs|
    ensures forall i | 0 <= i < |Zip(ms, rs)| :: Zip(ms, rs)[i] == Delivery(ms[i], rs[i])
  {
    if ms != [] && rs != [] { ZipAt(ms[1..], rs[1..]); }
  }

  function Happens(q: Queues, e: Event): (q': Queues) {
    match e
    case Arrives(m) => Arrive(q, m)
    case Asks(r) => Receive(q, r)
  }

  /** One more event keeps the pairing, and only an arrival adds to what arrived. */
  lemma HappensKeeps(q: Queues, e: Event)
    requires Paired(q)
    ensures Paired(Happens(q, e))
    ensures Happens(q, e).arrived == q.arrived + if e.Arrives? then [e.message] else []
  {
    match e
    case Arrives(m) => ArriveKeeps(q, m);
    case Asks(r) => ReceiveKeeps(q, r);
  }

  lemma {:induction false} RunIsPaired(es: seq<Event>)
    ensures Paired(Run(es)) && Run(es).arrived == Arrivals(es)
  {
    if es != [] {
      RunIsPaired(es[..|es| - 1]);
      HappensKeeps(Run(es[..|es| - 1]), es[|es| - 1]);
    }
  }

  /** Pairing is zipping. */
  lemma PairedIsZip(q: Queues)
    requires Paired(q)
    ensures q.delivered == Zip(q.arrived, q.asked)
  {
    ZipAt(q.arrived, q.asked);
  }

  /** For every interleaving: the callbacks made are exactly the zip of the messages in order of
      arrival with the requests in order of asking, and the queues are never both non-empty. */
  lemma DeliveriesAreTheZip(es: seq<Event>)
    ensures Run(es).arrived == Arrivals(es)
    ensures Run(es).delivered == Zip(Arrivals(es), Run(es).asked)
    ensures Run(es).messages == [] || Run(es).callbacks == []
    ensures Paired(Run(es))
  {
    RunIsPaired(es);
    PairedIsZip(Run(es));
  }

  // ---------------------------------------------------------------- who asks

  function Min(a: nat, b: nat): (n: nat) { if a < b then a else b }

  /** The calls to receive that come of making the calls in `stack`, when `waiting` messages wait: as
      long as there is a message, a call is answered at once, and the calls its callback makes come
      before all that were to come after it. */
  function Calls(stack: seq<Request>, waiting: nat): (s: seq<Request>)
    decreases waiting
  {
    if stack == [] || waiting == 0 then stack
    else [stack[0]] + Calls(stack[0].nested + stack[1..], waiting - 1)
  }

  /** The calls so far, when `arrived` messages have arrived, and those that come of one more event. */
  function AskedNext(asked: seq<Request>, arrived: nat, e: Event): (s: seq<Request>) {
    match e
    case Asks(r) => asked + Calls([r], if |asked| < arrived then arrived - |asked| else 0)
    case Arrives(_) => if arrived < |asked| then asked + asked[arrived].nested else asked
  }

  /** All calls to receive, told from the events: those of the application, and those of the callback of
      every request that gets a message. */
  function AskedIn(es: seq<Event>): (s: seq<Request>) {
    if es == [] then []
    else AskedNext(AskedIn(es[..|es| - 1]), |Arrivals(es[..|es| - 1])|, es[|es| - 1])
  }

  lemma {:induction false} CallsConcat(a: seq<Request>, b: seq<Request>, n: nat)
    ensures Calls(a + b, n) == Calls(a, n) + Calls(b, n - Min(n, |Calls(a, n)|))
    decreases n
  {
    if n == 0 || a == [] {
      assert a == [] ==> a + b == b;
    } else {
      assert (a + b)[1..] == a[1..] + b;
      assert a[0].nested + (a[1..] + b) == (a[0].nested + a[1..]) + b;
      CallsConcat(a[0].nested + a[1..], b, n - 1);
    }
  }

  lemma CallsOne(r: Request, n: nat)
    requires n > 0
    ensures Calls([r], n) == [r] + Calls(r.nested, n - 1)
  {
    assert r.nested + [r][1..] == r.nested;
  }

  /** After the calls `s` when `n` messages were waiting. */
  predicate Served(q: Queues, q': Queues, s: seq<Request>) {
    q'.asked == q.asked + s && |q'.messages| == |q.messages| - Min(|q.messages|, |s|)
  }

  lemma {:induction false} ReceiveServes(q: Queues, r: Request)
    ensures Served(q, Receive(q, r), Calls([r], |q.messages|))
    decreases r, 1
  {
    if q.messages != [] {
      var q1 := q.(asked := q.asked + [r], messages := q.messages[1..],
                   delivered := q.delivered + [Delivery(q.messages[0], r)]);
      ReceiveAllServes(q1, r.nested);
      CallsOne(r, |q.messages|);
      assert q.asked + ([r] + Calls(r.nested, |q.messages| - 1)) == q.asked + [r] + Calls(r.nested, |q.messages| - 1);
    }
  }

  lemma {:induction false} ReceiveAllServes(q: Queues, rs: seq<Request>)
    ensures Served(q, ReceiveAll(q, rs), Calls(rs, |q.messages|))
    decreases rs, 0
  {
    if rs != [] {
      var q1, n := Receive(q, rs[0]), |q.messages|;
      ReceiveServes(q, rs[0]);
      ReceiveAllServes(q1, rs[1..]);
      assert rs == [rs[0]] + rs[1..];
      CallsConcat([rs[0]], rs[1..], n);
    }
  }

  lemma HappensAsks(q: Queues, e: Event)
    requires Paired(q)
    ensures Happens(q, e).asked == AskedNext(q.asked, |q.arrived|, e)
  {
    match e
    case Asks(r) => ReceiveServes(q, r);
    case Arrives(m) =>
      if q.callbacks != [] {
        var q1 := q.(arrived := q.arrived + [m], callbacks := q.callbacks[1..],
                     delivered := q.delivered + [Delivery(m, q.callbacks[0])]);
        ReceiveAllServes(q1, q.callbacks[0].nested);
      }
  }

  /** For every interleaving, the calls to receive are those the events say, in that order. */
  lemma {:induction false} AskedAsTold(es: seq<Event>)
    ensures Run(es).asked == AskedIn(es)
  {
    if es != [] {
      AskedAsTold(es[..|es| - 1]);
      RunIsPaired(es[..|es| - 1]);
      HappensAsks(Run(es[..|es| - 1]), es[|es| - 1]);
    }
  }

  /** For every interleaving, the callbacks made are the zip of the messages in order of arrival with the
      calls to receive in order of asking, both told from the events. */
  lemma DeliveriesAsTold(es: seq<Event>)
    ensures Run(es).delivered == Zip(Arrivals(es), AskedIn(es))
  {
    DeliveriesAreTheZip(es);
    AskedAsTold(es);
  }

  // ---------------------------------------------------------------- each once

  function Times(s: seq<Request>, x: Request): (n: nat) {
    if s == [] then 0 else Times(s[..|s| - 1], x) + if s[|s| - 1] == x then 1 else 0
  }

  /** How often `x` is asked for by the callbacks of the requests in `s`. */
  function NestedTimes(s: seq<Request>, x: Request): (n: nat) {
    if s == [] then 0 else NestedTimes(s[..|s| - 1], x) + Times(s[|s| - 1].nested, x)
  }

  lemma {:induction false} TimesConcat(a: seq<Request>, b: seq<Request>, x: Request)
    ensures Times(a + b, x) == Times(a, x) + Times(b, x)
    ensures NestedTimes(a + b, x) == NestedTimes(a, x) + NestedTimes(b, x)
    decreases |b|
  {
    if b == [] {
      assert a + b == a;
    } else {
      assert (a + b)[..|a| + |b| - 1] == a + b[..|b| - 1] && (a + b)[|a| + |b| - 1] == b[|b| - 1];
      TimesConcat(a, b[..|b| - 1], x);
    }
  }

  lemma TimesOne(r: Request, x: Request)
    ensures Times([r], x) == (if r == x then 1 else 0) && NestedTimes([r], x) == Times(r.nested, x)
  {
    assert [r][..0] == [];
  }

  /** Of `asked`, the first `k` were given a message: all were asked for by the application, or by the
      callbacks of those, each once. */
  predicate Balanced(asked: seq<Request>, k: nat, asks: seq<Request>, x: Request)
  {
    k <= |asked| && Times(asked, x) == Times(asks, x) + NestedTimes(asked[..k], x)
  }

  lemma {:induction false} CallsBalanced(stack: seq<Request>, n: nat, x: Request)
    ensures Balanced(Calls(stack, n), Min(n, |Calls(stack, n)|), stack, x)
    decreases n
  {
    if stack == [] || n == 0 {
      assert Calls(stack, n)[..0] == [];
    } else {
      CallsBalanced(stack[0].nested + stack[1..], n - 1, x);
      OneCallBalanced(stack, Calls(stack[0].nested + stack[1..], n - 1), Min(n - 1, |Calls(stack, n)| - 1), x);
      assert Calls(stack, n) == [stack[0]] + Calls(stack[0].nested + stack[1..], n - 1);
    }
  }

  lemma OneCallBalanced(stack: seq<Request>, rest: seq<Request>, k: nat, x: Request)
    requires stack != [] && Balanced(rest, k, stack[0].nested + stack[1..], x)
    ensures Balanced([stack[0]] + rest, k + 1, stack, x)
  {
    var r := stack[0];
    assert ([r] + rest)[..k + 1] == [r] + rest[..k] && stack == [r] + stack[1..];
    TimesConcat([r], rest, x);
    TimesConcat([r], rest[..k], x);
    TimesConcat(r.nested, stack[1..], x);
    TimesConcat([r], stack[1..], x);
    TimesOne(r, x);
  }

  lemma MoreBalanced(asked: seq<Request>, k: nat, asks: seq<Request>, more: seq<Request>, j: nat,
                     stack: seq<Request>, x: Request)
    requires Balanced(asked, k, asks, x) && Balanced(more, j, stack, x) && (k == |asked| || j == 0)
    ensures Balanced(asked + more, k + j, asks + stack, x)
  {
    TimesConcat(asked, more, x);
    TimesConcat(asks, stack, x);
    if j == 0 {
      assert (asked + more)[..k] == asked[..k] && more[..0] == [];
    } else {
      assert (asked + more)[..k + j] == asked + more[..j] && asked[..k] == asked;
      TimesConcat(asked, more[..j], x);
    }
  }

  lemma AnswerBalanced(asked: seq<Request>, k: nat, asks: seq<Request>, x: Request)
    requires Balanced(asked, k, asks, x) && k < |asked|
    ensures Balanced(asked + asked[k].nested, k + 1, asks, x)
  {
    TimesConcat(asked, asked[k].nested, x);
    assert (asked + asked[k].nested)[..k + 1] == asked[..k] + [asked[k]];
    TimesConcat(asked[..k], [asked[k]], x);
    TimesOne(asked[k], x);
  }

  function AsksOf(es: seq<Event>): (s: seq<Request>) {
    if es == [] then []
    else if es[|es| - 1].Asks? then AsksOf(es[..|es| - 1]) + [es[|es| - 1].request]
    else AsksOf(es[..|es| - 1])
  }

  lemma AskBalanced(asked: seq<Request>, arrived: nat, asks: seq<Request>, r: Request, x: Request)
    requires Balanced(asked, Min(arrived, |asked|), asks, x)
    ensures var s := AskedNext(asked, arrived, Asks(r)); Balanced(s, Min(arrived, |s|), asks + [r], x)
  {
    var w := if |asked| < arrived then arrived - |asked| else 0;
    CallsBalanced([r], w, x);
    AskSums(asked, arrived, Calls([r], w), asks, r, w, x);
  }

  lemma AskSums(asked: seq<Request>, arrived: nat, s: seq<Request>, asks: seq<Request>, r: Request, w: nat, x: Request)
    requires w == if |asked| < arrived then arrived - |asked| else 0
    requires Balanced(asked, Min(arrived, |asked|), asks, x) && Balanced(s, Min(w, |s|), [r], x)
    ensures Balanced(asked + s, Min(arrived, |asked + s|), asks + [r], x)
  {
    MoreBalanced(asked, Min(arrived, |asked|), asks, s, Min(w, |s|), [r], x);
    assert Min(arrived, |asked + s|) == Min(arrived, |asked|) + Min(w, |s|);
  }

  lemma ArriveBalanced(asked: seq<Request>, arrived: nat, asks: seq<Request>, m: Message, x: Request)
    requires Balanced(asked, Min(arrived, |asked|), asks, x)
    ensures var s := AskedNext(asked, arrived, Arrives(m)); Balanced(s, Min(arrived + 1, |s|), asks, x)
  {
    if arrived < |asked| { AnswerBalanced(asked, arrived, asks, x); }
  }

  ghost predicate OnceEach(es: seq<Event>, x: Request) {
    Balanced(AskedIn(es), Min(|Arrivals(es)|, |AskedIn(es)|), AsksOf(es), x)
  }

  lemma AskOnce(es: seq<Event>, x: Request)
    requires es != [] && es[|es| - 1].Asks? && OnceEach(es[..|es| - 1], x)
    ensures OnceEach(es, x)
  {
    var before := es[..|es| - 1];
    AskBalanced(AskedIn(before), |Arrivals(before)|, AsksOf(before), es[|es| - 1].request, x);
  }

  lemma ArriveOnce(es: seq<Event>, x: Request)
    requires es != [] && es[|es| - 1].Arrives? && OnceEach(es[..|es| - 1], x)
    ensures OnceEach(es, x)
  {
    var before := es[..|es| - 1];
    ArriveBalanced(AskedIn(before), |Arrivals(before)|, AsksOf(before), es[|es| - 1].message, x);
  }

  lemma NothingAsked(x: Request)
    ensures OnceEach([], x)
  {}

  /** For every interleaving, the calls to receive are those of the application and those of the
      callbacks of all requests that were given a message, each once. */
  lemma {:induction false} AskedOnce(es: seq<Event>, x: Request)
    ensures OnceEach(es, x)
  {
    if es == [] {
      NothingAsked(x);
    } else {
      AskedOnce(es[..|es| - 1], x);
      if es[|es| - 1].Asks? { AskOnce(es, x); } else { ArriveOnce(es, x); }
    }
  }

  class Connection {
    var callbacks: seq<Request>
    var messages: seq<Message>
    ghost var arrived: seq<Message>
    ghost var asked: seq<Request>
    var delivered: seq<Delivery>

    ghost function Model(): (q: Queues)
      reads this
    {
      Queues(callbacks, messages, arrived, asked, delivered)
    }

    constructor ()
      ensures Model() == Run([])
    {
      callbacks, messages, arrived, asked, delivered := [], [], [], [], [];
    }

    /** Runs the receive callback of `r`, which may ask again. */
    method Callback(r: Request, m: Message)
      modifies this
      ensures Model() == ReceiveAll(old(Model()).(delivered := old(delivered) + [Delivery(m, r)]), r.nested)
      decreases r, 0
    {
      delivered := delivered + [Delivery(m, r)];
      ghost var goal := ReceiveAll(Model(), r.nested);
      for i := 0 to |r.nested|
        invariant ReceiveAll(Model(), r.nested[i..]) == goal
      {
        assert r.nested[i..][1..] == r.nested[i + 1..];
        ReceiveMessage(r.nested[i]);
      }
    }

    method ReceiveMessage(r: Request)
      modifies this
      ensures Model() == Receive(old(Model()), r)
      decreases r, 1
    {
      asked := asked + [r];
      if |messages| > 0 {
        var m := messages[0];
        messages := messages[1..];
        Callback(r, m);
        return;
      }
      callbacks := callbacks + [r];
    }

    method DeliverToApp(m: Message)
      modifies this
      ensures Model() == Arrive(old(Model()), m)
    {
      arrived := arrived + [m];
      if |callbacks| == 0 {
        messages := messages + [m];
      } else {
        var r := callbacks[0];
        callbacks := callbacks[1..];
        Callback(r, m);
      }
    }
  }
}
