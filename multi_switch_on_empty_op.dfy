/**
 The operator `MultiSwitchOnEmptyOp` and its subscriber `SwitchIfEmptySubscriber`
 as objects.

 Publishers and the downstream subscriber are code the operator does not own:
 they are opaque identities here, and every call the operator makes to them is
 appended, in order, to the `calls` of an `Environment`. The subscriber's
 ghost state (`received`, `sent`, `alternativeSubscriptions`) is tied by
 `Valid()` to the pure machine of `SwitchOnEmptySpec`.
 */
module MultiSwitchOnEmpty {
  import opened SwitchOnEmptySpec

  /** A producer of items (a Reactive Streams publisher); only its identity matters. */
  class Publisher { }

  /** The downstream consumer handed to `subscribe`; only its identity matters. */
  class Subscriber { }

  /** A call the operator makes to a party outside it. */
  datatype Call<T> =
    | SentOnSubscribe(target: Subscriber, subscription: object)   // target.onSubscribe(subscription)
    | SentOnNext(target: Subscriber, item: T)                      // target.onNext(item)
    | SentOnComplete(target: Subscriber)                           // target.onComplete()
    | SentSubscribe(publisher: Publisher, subscriber: object)      // publisher.subscribe(subscriber)

  /** The ordered record of every call made to the publishers and the downstream. */
  class Environment<T> {
    var calls: seq<Call<T>>

    constructor ()
      ensures calls == []
    {
      calls := [];
    }
  }

  datatype Error = NullPointer(message: string)

  datatype Result<R, E> = Success(value: R) | Failure(error: E)

  /** A null reference is refused with an error naming it; anything else is
      passed through as a non-null reference. */
  function RequireNonNull(p: Publisher?, message: string): (r: Result<Publisher, Error>)
    ensures r.Success? <==> p != null
    ensures r.Success? ==> r.value == p
    ensures r.Failure? ==> r.error == NullPointer(message)
  {
    if p == null then Failure(NullPointer(message)) else var q: Publisher := p; Success(q)
  }

  class MultiSwitchOnEmptyOp<T> {
    const upstream: Publisher
    const alternative: Publisher

    constructor (upstream: Publisher, alternative: Publisher)
      ensures this.upstream == upstream && this.alternative == alternative
    {
      this.upstream := upstream;
      this.alternative := alternative;
    }

    /** Building the operator: a null alternative is refused before anything
        is subscribed (this method changes no existing object). */
    static method Create(upstream: Publisher, alternative: Publisher?)
      returns (r: Result<MultiSwitchOnEmptyOp<T>, Error>)
      ensures r.Failure? <==> alternative == null
      ensures r.Failure? ==> r.error == NullPointer("alternative")
      ensures r.Success? ==> fresh(r.value)
      ensures r.Success? ==> r.value.upstream == upstream && r.value.alternative == alternative
    {
      var checked := RequireNonNull(alternative, "alternative");
      if checked.Failure? {
        return Failure(checked.error);
      }
      var op := new MultiSwitchOnEmptyOp(upstream, checked.value);
      return Success(op);
    }

    /** Subscribing `actual`: a fresh subscriber is handed to `actual` first,
        and only then is that same subscriber subscribed to the upstream. */
    method Subscribe(actual: Subscriber, env: Environment<T>)
      returns (parent: SwitchIfEmptySubscriber<T>)
      modifies env
      ensures fresh(parent)
      ensures parent.downstream == actual && parent.alternative == alternative && parent.env == env
      ensures parent.Valid() && !parent.notEmpty && parent.received == []
      ensures env.calls == old(env.calls) + [SentOnSubscribe(actual, parent), SentSubscribe(upstream, parent)]
    {
      parent := new SwitchIfEmptySubscriber(actual, alternative, env);
      env.calls := env.calls + [SentOnSubscribe(actual, parent)];
      env.calls := env.calls + [SentSubscribe(upstream, parent)];
    }
  }

  class SwitchIfEmptySubscriber<T> {
    const downstream: Subscriber
    const alternative: Publisher
    const env: Environment<T>
    var notEmpty: bool

    /** The signals received so far, in order. */
    ghost var received: seq<Signal<T>>
    /** The calls this subscriber has made so far, in order. */
    ghost var sent: seq<Call<T>>
    /** How many times this subscriber has subscribed itself to the alternative. */
    ghost var alternativeSubscriptions: nat

    /** The call that carries out a reaction of the pure machine. */
    function Perform(r: Reaction<T>): (call: Call<T>)
    {
      match r
      case Forward(t) => SentOnNext(downstream, t)
      case ForwardComplete => SentOnComplete(downstream)
      case SubscribeAlternative => SentSubscribe(alternative, this)
    }

    function PerformAll(rs: seq<Reaction<T>>): (calls: seq<Call<T>>)
    {
      seq(|rs|, i requires 0 <= i < |rs| => Perform(rs[i]))
    }

    /** The object state is what the pure machine reaches on `received`, and
        the calls made are the machine's reactions, carried out. */
    ghost predicate Valid()
      reads this
    {
      var run := Run(false, received);
      && notEmpty == run.notEmpty
      && sent == PerformAll(run.reactions)
      && alternativeSubscriptions == Switches(run.reactions)
    }

    constructor (downstream: Subscriber, alternative: Publisher, env: Environment<T>)
      ensures this.downstream == downstream && this.alternative == alternative && this.env == env
      ensures Valid() && !notEmpty
      ensures received == [] && sent == [] && alternativeSubscriptions == 0
    {
      this.downstream := downstream;
      this.alternative := alternative;
      this.env := env;
      notEmpty := false;
      received := [];
      sent := [];
      alternativeSubscriptions := 0;
    }

    /** Appending one signal to `received` moves the machine by one step. */
    lemma Advance(s: Signal<T>)
      requires Valid()
      ensures var run := Run(false, received + [s]);
              var (flag, reaction) := Step(notEmpty, s);
              && run.notEmpty == flag
              && PerformAll(run.reactions) == sent + [Perform(reaction)]
              && Switches(run.reactions)
                 == alternativeSubscriptions + (if reaction.SubscribeAlternative? then 1 else 0)
              && Switches(run.reactions) <= 1
    {
      var before := Run(false, received);
      RunAppend(false, received, [s]);
      var reaction := Step(notEmpty, s).1;
      assert Run(notEmpty, [s]).reactions == [reaction];
      var after := before.reactions + [reaction];
      assert PerformAll(after) == PerformAll(before.reactions) + [Perform(reaction)];
      SwitchesAppend(before.reactions, [reaction]);
      SwitchAtMostOnce(false, received + [s]);
    }

    /** `onNext`: the flag is set and the item goes downstream unchanged. */
    method OnNext(t: T)
      requires Valid()
      modifies this, env
      ensures Valid() && notEmpty
      ensures received == old(received) + [Next(t)]
      ensures env.calls == old(env.calls) + [SentOnNext(downstream, t)]
      ensures sent == old(sent) + [SentOnNext(downstream, t)]
      ensures alternativeSubscriptions == old(alternativeSubscriptions) <= 1
    {
      Advance(Next(t));
      if !notEmpty {
        notEmpty := true;
      }
      env.calls := env.calls + [SentOnNext(downstream, t)];
      received := received + [Next(t)];
      sent := sent + [SentOnNext(downstream, t)];
    }

    /** `onComplete`: with no item seen, the flag is set and only then does
        the subscriber subscribe itself to the alternative, sending nothing
        downstream; otherwise the completion goes downstream.

        `nested` is what the alternative delivers to this subscriber while
        `alternative.subscribe(this)` is still running (an alternative that
        emits or completes on subscription); each of those signals re-enters
        `OnNext` or `OnComplete` before this call returns. An alternative that
        emits later is `nested == []` followed by separate calls. When the
        alternative is not subscribed, `nested` is not used. */
    method OnComplete(nested: seq<Signal<T>>)
      requires Valid()
      modifies this, env
      decreases |nested|
      ensures Valid() && notEmpty
      ensures !old(notEmpty) ==>
                && received == old(received) + [Complete] + nested
                && env.calls == old(env.calls) + [SentSubscribe(alternative, this)]
                                + PerformAll(Run(true, nested).reactions)
                && sent == old(sent) + [SentSubscribe(alternative, this)]
                           + PerformAll(Run(true, nested).reactions)
                && alternativeSubscriptions == old(alternativeSubscriptions) + 1
      ensures old(notEmpty) ==>
                && received == old(received) + [Complete]
                && env.calls == old(env.calls) + [SentOnComplete(downstream)]
                && sent == old(sent) + [SentOnComplete(downstream)]
                && alternativeSubscriptions == old(alternativeSubscriptions)
      ensures alternativeSubscriptions <= 1
    {
      Advance(Complete);
      if !notEmpty {
        notEmpty := true;
        env.calls := env.calls + [SentSubscribe(alternative, this)];
        received := received + [Complete];
        sent := sent + [SentSubscribe(alternative, this)];
        alternativeSubscriptions := alternativeSubscriptions + 1;
        ghost var received0, sent0, calls0 := received, sent, env.calls;
        var i := 0;
        while i < |nested|
          invariant 0 <= i <= |nested|
          invariant Valid() && notEmpty
          invariant received == received0 + nested[..i]
          invariant |sent0| <= |sent| && sent[..|sent0|] == sent0
          invariant env.calls == calls0 + sent[|sent0|..]
          invariant alternativeSubscriptions == old(alternativeSubscriptions) + 1
        {
          ghost var sentBefore := sent;
          match nested[i] {
            case Next(t) => OnNext(t);
            case Complete => OnComplete([]);
          }
          assert sent[|sent0|..] == sentBefore[|sent0|..] + [sent[|sent| - 1]];
          assert nested[..i + 1] == nested[..i] + [nested[i]];
          i := i + 1;
        }
        assert nested[..|nested|] == nested;
        RunAppend(false, received0, nested);
        PerformAllAppend(Run(false, received0).reactions, Run(true, nested).reactions);
        assert sent[|sent0|..] == PerformAll(Run(true, nested).reactions);
      } else {
        env.calls := env.calls + [SentOnComplete(downstream)];
        received := received + [Complete];
        sent := sent + [SentOnComplete(downstream)];
      }
    }

    lemma PerformAllAppend(a: seq<Reaction<T>>, b: seq<Reaction<T>>)
      ensures PerformAll(a + b) == PerformAll(a) + PerformAll(b)
    {
      assert forall k :: 0 <= k < |a + b| ==> PerformAll(a + b)[k] == (PerformAll(a) + PerformAll(b))[k];
    }

    /** The calls that go to the downstream subscriber, in order. */
    function DownstreamCalls(calls: seq<Call<T>>): (toDownstream: seq<Call<T>>)
      decreases |calls|
    {
      if calls == [] then []
      else (if calls[0].SentOnNext? || calls[0].SentOnComplete? then [calls[0]] else [])
           + DownstreamCalls(calls[1..])
    }

    /** Signals carried out as calls to the downstream subscriber. */
    function Deliveries(signals: seq<Signal<T>>): (calls: seq<Call<T>>)
    {
      seq(|signals|, k requires 0 <= k < |signals| =>
        match signals[k]
        case Next(t) => SentOnNext(downstream, t)
        case Complete => SentOnComplete(downstream))
    }

    lemma {:induction false} DownstreamOfPerformed(rs: seq<Reaction<T>>)
      ensures DownstreamCalls(PerformAll(rs)) == Deliveries(Downstream(rs))
      decreases |rs|
    {
      if rs == [] {
        assert PerformAll(rs) == [];
      } else {
        assert rs == [rs[0]] + rs[1..];
        PerformAllAppend([rs[0]], rs[1..]);
        var calls := PerformAll(rs);
        assert calls[0] == Perform(rs[0]);
        assert calls[1..] == PerformAll(rs[1..]);
        DownstreamOfPerformed(rs[1..]);
        var head := match rs[0]
          case Forward(t) => [Next(t)]
          case ForwardComplete => [Complete]
          case SubscribeAlternative => [];
        assert Downstream(rs) == head + Downstream(rs[1..]);
        assert Deliveries(head + Downstream(rs[1..])) == Deliveries(head) + Deliveries(Downstream(rs[1..]));
      }
    }

    /** A subscriber that has received a well-formed upstream stream, and the
        alternative's stream after an empty upstream, has delivered exactly
        `Expected` to its downstream, and has subscribed the alternative once
        for an empty upstream and never otherwise. */
    lemma Delivers(upstream: seq<T>, alternative: seq<T>)
      requires Valid()
      requires received == Emission(upstream) + (if upstream == [] then Emission(alternative) else [])
      ensures DownstreamCalls(sent) == Deliveries(Expected(upstream, alternative))
      ensures alternativeSubscriptions == (if upstream == [] then 1 else 0)
    {
      var first := Run(false, Emission(upstream));
      var tail := if upstream == [] then Emission(alternative) else [];
      RunAppend(false, Emission(upstream), tail);
      EndToEnd(upstream, alternative);
      var all := Run(false, received).reactions;
      if upstream == [] {
        assert Switches(first.reactions) > 0;
        assert all == first.reactions + Run(first.notEmpty, Emission(alternative)).reactions;
      } else {
        assert Switches(first.reactions) == 0;
        assert Run<T>(first.notEmpty, []).reactions == [];
        assert all == first.reactions + [];
      }
      DownstreamOfPerformed(all);
    }
  }

  /** A client: an empty upstream, then an alternative that emits 1, 2, 3
      after its subscription has returned. The downstream sees its
      subscription, then the alternative's items and the completion; the
      alternative is subscribed once. */
  method EmptyUpstreamClient()
  {
    var env := new Environment<int>();
    var upstream, alternative, actual := new Publisher, new Publisher, new Subscriber;
    var made := MultiSwitchOnEmptyOp<int>.Create(upstream, alternative);
    var op := made.value;
    var parent := op.Subscribe(actual, env);
    parent.OnComplete([]);
    parent.OnNext(1);
    parent.OnNext(2);
    parent.OnNext(3);
    parent.OnComplete([]);
    assert env.calls == [SentOnSubscribe(actual, parent), SentSubscribe(upstream, parent),
                         SentSubscribe(alternative, parent),
                         SentOnNext(actual, 1), SentOnNext(actual, 2), SentOnNext(actual, 3),
                         SentOnComplete(actual)];
    assert parent.alternativeSubscriptions == 1;
  }

  /** A client: upstream and alternative both empty, the alternative
      completing inside `subscribe`. The nested completion is forwarded
      downstream instead of subscribing the alternative a second time. */
  method BothEmptyClient()
  {
    var env := new Environment<int>();
    var upstream, alternative, actual := new Publisher, new Publisher, new Subscriber;
    var made := MultiSwitchOnEmptyOp<int>.Create(upstream, alternative);
    var op := made.value;
    var parent := op.Subscribe(actual, env);
    parent.OnComplete([Complete]);
    assert Run<int>(true, [Complete]).reactions == [ForwardComplete];
    assert env.calls == [SentOnSubscribe(actual, parent), SentSubscribe(upstream, parent),
                         SentSubscribe(alternative, parent), SentOnComplete(actual)];
    assert parent.alternativeSubscriptions == 1;
  }

  /** A client: a null alternative is refused at construction. */
  method NullAlternativeClient()
  {
    var upstream := new Publisher;
    var made := MultiSwitchOnEmptyOp<int>.Create(upstream, null);
    assert made == Failure(NullPointer("alternative"));
  }
}
