/**
 The switch-on-empty subscriber as a pure state machine.

 The subscriber keeps one flag, `notEmpty`, and answers every signal it
 receives from the currently active publisher with exactly one reaction:
 an item is forwarded downstream, a completion after an item is forwarded
 downstream, and a completion before any item re-subscribes the subscriber
 to the alternative publisher instead. `Run` folds this over a serialized
 sequence of signals; the lemmas below state what the operator promises
 about every such sequence.
 */
module SwitchOnEmptySpec {

  /** A signal delivered to a subscriber: `onNext(item)` or `onComplete()`. */
  datatype Signal<T> = Next(item: T) | Complete

  /** What the subscriber does in answer to one signal. */
  datatype Reaction<T> =
    | Forward(item: T)        // downstream.onNext(item)
    | ForwardComplete         // downstream.onComplete()
    | SubscribeAlternative    // alternative.subscribe(this)

  /** The flag after a run, and the reactions of the run in order. */
  datatype Trace<T> = Trace(notEmpty: bool, reactions: seq<Reaction<T>>)

  /** One handler call, `onNext` or `onComplete`: the new value of `notEmpty`
      and the reaction. `RunAt` states what it gives at each point of a run. */
  function Step<T>(notEmpty: bool, s: Signal<T>): (r: (bool, Reaction<T>))
  {
    match s
    case Next(t) => (true, Forward(t))
    case Complete =>
      if !notEmpty then (true, SubscribeAlternative) else (notEmpty, ForwardComplete)
  }

  /** Feeds `signals` one at a time to a subscriber whose flag is `notEmpty`. */
  function Run<T>(notEmpty: bool, signals: seq<Signal<T>>): (r: Trace<T>)
    ensures |r.reactions| == |signals|
    ensures r.notEmpty == (notEmpty || signals != [])
    decreases |signals|
  {
    if signals == [] then Trace(notEmpty, [])
    else
      var (flag, reaction) := Step(notEmpty, signals[0]);
      var rest := Run(flag, signals[1..]);
      Trace(rest.notEmpty, [reaction] + rest.reactions)
  }

  /** The items carried by the `Next` signals, in order. */
  function Items<T>(signals: seq<Signal<T>>): (items: seq<T>)
    decreases |signals|
  {
    if signals == [] then []
    else (if signals[0].Next? then [signals[0].item] else []) + Items(signals[1..])
  }

  /** The items forwarded downstream, in order. */
  function Forwarded<T>(reactions: seq<Reaction<T>>): (items: seq<T>)
    decreases |reactions|
  {
    if reactions == [] then []
    else (if reactions[0].Forward? then [reactions[0].item] else []) + Forwarded(reactions[1..])
  }

  /** How many times the alternative was subscribed. */
  function Switches<T>(reactions: seq<Reaction<T>>): (n: nat)
    decreases |reactions|
  {
    if reactions == [] then 0
    else (if reactions[0].SubscribeAlternative? then 1 else 0) + Switches(reactions[1..])
  }

  /** The signals that reach the downstream subscriber, in order. */
  function Downstream<T>(reactions: seq<Reaction<T>>): (delivered: seq<Signal<T>>)
    decreases |reactions|
  {
    if reactions == [] then []
    else
      var head := match reactions[0]
        case Forward(t) => [Next(t)]
        case ForwardComplete => [Complete]
        case SubscribeAlternative => [];
      head + Downstream(reactions[1..])
  }

  /** The signals of a publisher that emits `items` and then completes. */
  function Emission<T>(items: seq<T>): (signals: seq<Signal<T>>)
    decreases |items|
  {
    if items == [] then [Complete] else [Next(items[0])] + Emission(items[1..])
  }

  /** What the downstream should observe: the upstream's stream if it has an
      item, and otherwise the alternative's stream. */
  function Expected<T>(upstream: seq<T>, alternative: seq<T>): (observed: seq<Signal<T>>)
  {
    Emission(if upstream != [] then upstream else alternative)
  }

  /** Running two sequences one after the other is running their
      concatenation: the subscriber reacts to each signal in turn. */
  lemma {:induction false} RunAppend<T>(notEmpty: bool, s: seq<Signal<T>>, t: seq<Signal<T>>)
    ensures Run(notEmpty, s + t)
         == Trace(Run(Run(notEmpty, s).notEmpty, t).notEmpty,
                  Run(notEmpty, s).reactions + Run(Run(notEmpty, s).notEmpty, t).reactions)
    decreases |s|
  {
    if s == [] {
      assert s + t == t;
    } else {
      assert (s + t)[0] == s[0];
      assert (s + t)[1..] == s[1..] + t;
      RunAppend(Step(notEmpty, s[0]).0, s[1..], t);
    }
  }

  /** The i-th reaction is the handler's answer to the i-th signal, with the
      flag set once any signal has been received. */
  lemma {:induction false} RunAt<T>(notEmpty: bool, s: seq<Signal<T>>, i: nat)
    requires i < |s|
    ensures Run(notEmpty, s).reactions[i] == Step(notEmpty || i > 0, s[i]).1
    decreases i
  {
    if i > 0 {
      RunAt(Step(notEmpty, s[0]).0, s[1..], i - 1);
    }
  }

  /** `onNext` forwards exactly the item it received. */
  lemma ItemForwarded<T>(notEmpty: bool, s: seq<Signal<T>>, i: nat)
    requires i < |s|
    ensures Run(notEmpty, s).reactions[i].Forward? <==> s[i].Next?
    ensures s[i].Next? ==> Run(notEmpty, s).reactions[i] == Forward(s[i].item)
  {
    RunAt(notEmpty, s, i);
  }

  /** The alternative is subscribed in answer to a signal exactly when that
      signal is a completion arriving before any other signal. */
  lemma SwitchOnlyOnEmptyCompletion<T>(notEmpty: bool, s: seq<Signal<T>>, i: nat)
    requires i < |s|
    ensures Run(notEmpty, s).reactions[i].SubscribeAlternative?
        <==> s[i].Complete? && !notEmpty && i == 0
  {
    RunAt(notEmpty, s, i);
  }

  /** A completion is forwarded downstream exactly when some signal came
      before it; in particular a second completion, such as one from an
      empty alternative, always terminates the stream. */
  lemma CompletionForwarded<T>(notEmpty: bool, s: seq<Signal<T>>, i: nat)
    requires i < |s|
    ensures Run(notEmpty, s).reactions[i].ForwardComplete?
        <==> s[i].Complete? && (notEmpty || i > 0)
  {
    RunAt(notEmpty, s, i);
  }

  /** Items reach the downstream unchanged and in the order received. */
  lemma {:induction false} ForwardsInOrder<T>(notEmpty: bool, s: seq<Signal<T>>)
    ensures Forwarded(Run(notEmpty, s).reactions) == Items(s)
    decreases |s|
  {
    if s != [] {
      var (flag, reaction) := Step(notEmpty, s[0]);
      var rest := Run(flag, s[1..]);
      assert Run(notEmpty, s).reactions == [reaction] + rest.reactions;
      assert ([reaction] + rest.reactions)[1..] == rest.reactions;
      ForwardsInOrder(flag, s[1..]);
    }
  }

  /** Over any sequence of signals the alternative is subscribed at most
      once: once if the very first signal is a completion received with the
      flag clear, and never otherwise. */
  lemma {:induction false} SwitchAtMostOnce<T>(notEmpty: bool, s: seq<Signal<T>>)
    ensures Switches(Run(notEmpty, s).reactions)
         == (if !notEmpty && s != [] && s[0].Complete? then 1 else 0)
    ensures Switches(Run(notEmpty, s).reactions) <= 1
    decreases |s|
  {
    if s != [] {
      var (flag, reaction) := Step(notEmpty, s[0]);
      var rest := Run(flag, s[1..]);
      assert Run(notEmpty, s).reactions == [reaction] + rest.reactions;
      assert ([reaction] + rest.reactions)[1..] == rest.reactions;
      SwitchAtMostOnce(flag, s[1..]);
    }
  }

  lemma {:induction false} SwitchesAppend<T>(a: seq<Reaction<T>>, b: seq<Reaction<T>>)
    ensures Switches(a + b) == Switches(a) + Switches(b)
    decreases |a|
  {
    if a != [] {
      assert (a + b)[0] == a[0];
      assert (a + b)[1..] == a[1..] + b;
      SwitchesAppend(a[1..], b);
    } else {
      assert a + b == b;
    }
  }

  lemma {:induction false} DownstreamAppend<T>(a: seq<Reaction<T>>, b: seq<Reaction<T>>)
    ensures Downstream(a + b) == Downstream(a) + Downstream(b)
    decreases |a|
  {
    if a != [] {
      assert (a + b)[0] == a[0];
      assert (a + b)[1..] == a[1..] + b;
      DownstreamAppend(a[1..], b);
    } else {
      assert a + b == b;
    }
  }

  /** Once the flag is set (or the publisher has an item), a publisher's
      whole stream passes through unchanged and the alternative is untouched. */
  lemma {:induction false} PassThrough<T>(notEmpty: bool, items: seq<T>)
    requires notEmpty || items != []
    ensures Downstream(Run(notEmpty, Emission(items)).reactions) == Emission(items)
    ensures Switches(Run(notEmpty, Emission(items)).reactions) == 0
    ensures Run(notEmpty, Emission(items)).notEmpty
    decreases |items|
  {
    var s := Emission(items);
    var r := Run(notEmpty, s).reactions;
    if items == [] {
      assert s == [Complete];
      assert r == [ForwardComplete];
      assert r[1..] == [];
    } else {
      assert s[0] == Next(items[0]) && s[1..] == Emission(items[1..]);
      var rest := Run(true, Emission(items[1..])).reactions;
      assert r == [Forward(items[0])] + rest;
      assert r[1..] == rest;
      PassThrough(true, items[1..]);
    }
  }

  /** The whole operator: the upstream's stream is fed to a fresh subscriber;
      if (and only if) that subscribes the alternative, the alternative's
      stream follows. The downstream then observes exactly `Expected`, and the
      alternative is subscribed once for an empty upstream and never otherwise. */
  lemma EndToEnd<T>(upstream: seq<T>, alternative: seq<T>)
    ensures var first := Run(false, Emission(upstream));
            var switched := Switches(first.reactions) > 0;
            var all := first.reactions
              + (if switched then Run(first.notEmpty, Emission(alternative)).reactions else []);
            && (switched <==> upstream == [])
            && Switches(all) == (if upstream == [] then 1 else 0)
            && Downstream(all) == Expected(upstream, alternative)
  {
    var first := Run(false, Emission(upstream));
    if upstream == [] {
      assert Emission(upstream) == [Complete];
      assert first.reactions == [SubscribeAlternative];
      assert first.reactions[1..] == [];
      var second := Run(first.notEmpty, Emission(alternative)).reactions;
      PassThrough(true, alternative);
      SwitchesAppend(first.reactions, second);
      DownstreamAppend(first.reactions, second);
    } else {
      PassThrough(false, upstream);
      assert first.reactions + [] == first.reactions;
    }
  }

  /** Empty upstream, alternative emitting 1, 2, 3: the downstream observes
      1, 2, 3 and then completion. */
  lemma EmptyUpstreamUsesAlternative()
    ensures var first := Run(false, Emission<int>([]));
            && first.reactions == [SubscribeAlternative]
            && Downstream(first.reactions + Run(first.notEmpty, Emission([1, 2, 3])).reactions)
               == [Next(1), Next(2), Next(3), Complete]
  {
    EndToEnd<int>([], [1, 2, 3]);
    assert Expected<int>([], [1, 2, 3]) == [Next(1), Next(2), Next(3), Complete];
  }

  /** Upstream emitting 5: the downstream observes 5 and then completion, and
      the alternative is never subscribed. */
  lemma NonEmptyUpstreamIgnoresAlternative()
    ensures var first := Run(false, Emission([5]));
            && Switches(first.reactions) == 0
            && Downstream(first.reactions) == [Next(5), Complete]
  {
    PassThrough(false, [5]);
    assert Emission([5]) == [Next(5), Complete];
  }

  /** Upstream and alternative both empty: the first completion switches, the
      second (from the alternative) terminates the stream. */
  lemma BothEmptyTerminates<T>()
    ensures Run<T>(false, [Complete, Complete]).reactions == [SubscribeAlternative, ForwardComplete]
  {
  }
}
