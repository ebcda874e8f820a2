# Switch-on-empty operator

A Dafny model of the `MultiSwitchOnEmptyOp` operator of SmallRye Mutiny: a
stream operator that passes its upstream through unchanged and, only when the
upstream completes without having emitted any item, subscribes the same
subscriber to an alternative publisher, whose items then reach the downstream
in place of the (empty) upstream's.

The project has two modules:

- `SwitchOnEmptySpec` (`switch_on_empty_spec.dfy`): the subscriber's single
  flag `notEmpty` and its two handlers as a pure state machine. `Step` is one
  handler call, `Run` feeds a serialized sequence of `onNext`/`onComplete`
  signals through it and collects the reactions (forward an item, forward the
  completion, subscribe the alternative). The lemmas state, for every
  sequence of signals, what the operator promises: items are forwarded
  unchanged and in order, the flag is monotone, the alternative is subscribed
  at most once and only for a completion that comes first, every later
  completion terminates the stream, and end to end the downstream observes
  the upstream's stream if it has an item and the alternative's otherwise.
- `MultiSwitchOnEmpty` (`multi_switch_on_empty_op.dfy`): the Java classes as
  Dafny classes. `MultiSwitchOnEmptyOp` holds the upstream and the alternative
  and wires a fresh `SwitchIfEmptySubscriber` up in `Subscribe`; the
  subscriber's `OnNext` and `OnComplete` update the real `notEmpty` field.
  Publishers and the downstream subscriber are opaque identities, and each
  call the operator makes to them (`onSubscribe`, `onNext`, `onComplete`,
  `subscribe`) is appended to the `calls` log of an `Environment`, so the order
  of outward calls is part of every method's contract. The subscriber's ghost
  fields (`received`, `sent`, `alternativeSubscriptions`) are tied by `Valid()`
  to `Run`: after any sequence of handler calls, the object's flag and the
  calls it has made are exactly what the pure machine gives for the signals
  received. `Delivers` lifts `EndToEnd` to the object: a subscriber that has
  received a well-formed upstream stream (and, after an empty one, the
  alternative's) has made exactly the expected calls to its downstream.

The code uses the single field `notEmpty` both as the item-seen flag and as
the guard against subscribing the alternative twice: the empty branch of
`onComplete` sets it before calling `alternative.subscribe(this)`. That order
matters for an alternative that emits or completes while `subscribe` is still
running (an empty alternative completing on subscription re-enters
`onComplete` at once). `OnComplete` takes those nested signals as a parameter
and feeds them through the handlers inside the call, so its contract depends
on the flag having been set first.

## Model

| member | source | states |
|---|---|---|
| SwitchOnEmptySpec.Run | implementation/src/main/java/io/smallrye/reactive/operators/multi/MultiSwitchOnEmptyOp.java:40-56 | every signal gets exactly one reaction, and the flag afterwards is set exactly when it was set before or some signal arrived: `notEmpty` never goes back to false |
| SwitchOnEmptySpec.RunAppend | implementation/src/main/java/io/smallrye/reactive/operators/multi/MultiSwitchOnEmptyOp.java:40-56 | delivering two batches of signals one after the other gives the same flag and the concatenated reactions as delivering them together |
| SwitchOnEmptySpec.RunAt | implementation/src/main/java/io/smallrye/reactive/operators/multi/MultiSwitchOnEmptyOp.java:40-56 | the reaction to the i-th signal is the handler's answer given the flag at that point, which is set for every signal after the first |
| SwitchOnEmptySpec.ItemForwarded | implementation/src/main/java/io/smallrye/reactive/operators/multi/MultiSwitchOnEmptyOp.java:41-46 | a reaction is a forwarded item exactly when its signal is `onNext`, and the item forwarded is the one received |
| SwitchOnEmptySpec.ForwardsInOrder | implementation/src/main/java/io/smallrye/reactive/operators/multi/MultiSwitchOnEmptyOp.java:41-46 | the items forwarded downstream are exactly the items received, unchanged and in the same order |
| SwitchOnEmptySpec.SwitchOnlyOnEmptyCompletion | implementation/src/main/java/io/smallrye/reactive/operators/multi/MultiSwitchOnEmptyOp.java:49-52 | the alternative is subscribed in answer to a signal if and only if it is a completion that arrives first, with no item seen |
| SwitchOnEmptySpec.CompletionForwarded | implementation/src/main/java/io/smallrye/reactive/operators/multi/MultiSwitchOnEmptyOp.java:49-55 | a completion goes downstream if and only if an item or an earlier completion was received; a second completion always terminates the stream |
| SwitchOnEmptySpec.SwitchAtMostOnce | implementation/src/main/java/io/smallrye/reactive/operators/multi/MultiSwitchOnEmptyOp.java:50-52 | over any signal sequence the alternative is subscribed once if the first signal is a completion with no item seen, and never otherwise; so at most once |
| SwitchOnEmptySpec.SwitchesAppend | implementation/src/main/java/io/smallrye/reactive/operators/multi/MultiSwitchOnEmptyOp.java:50-52 | the subscription count of two runs of reactions adds up |
| SwitchOnEmptySpec.DownstreamAppend | implementation/src/main/java/io/smallrye/reactive/operators/multi/MultiSwitchOnEmptyOp.java:41-56 | what reaches the downstream from two runs of reactions is the concatenation of what each delivers |
| SwitchOnEmptySpec.PassThrough | implementation/src/main/java/io/smallrye/reactive/operators/multi/MultiSwitchOnEmptyOp.java:41-55 | once the flag is set or the publisher has an item, its whole stream (items then completion) reaches the downstream unchanged and the alternative is not subscribed |
| SwitchOnEmptySpec.EndToEnd | implementation/src/main/java/io/smallrye/reactive/operators/multi/MultiSwitchOnEmptyOp.java:10-56 | for any upstream and alternative streams: the switch happens if and only if the upstream is empty, the alternative is subscribed once for an empty upstream and never otherwise, and the downstream observes the upstream's stream if it has an item and the alternative's stream otherwise |
| SwitchOnEmptySpec.EmptyUpstreamUsesAlternative | implementation/src/main/java/io/smallrye/reactive/operators/multi/MultiSwitchOnEmptyOp.java:49-52 | an empty upstream followed by an alternative emitting 1, 2, 3 gives the downstream 1, 2, 3 and then completion, after a single switch |
| SwitchOnEmptySpec.NonEmptyUpstreamIgnoresAlternative | implementation/src/main/java/io/smallrye/reactive/operators/multi/MultiSwitchOnEmptyOp.java:41-55 | an upstream emitting 5 gives the downstream 5 and then completion, and the alternative is never subscribed |
| SwitchOnEmptySpec.BothEmptyTerminates | implementation/src/main/java/io/smallrye/reactive/operators/multi/MultiSwitchOnEmptyOp.java:49-55 | with both publishers empty, the first completion switches and the second one (from the alternative) is forwarded, so the stream terminates instead of switching again |
| MultiSwitchOnEmpty.RequireNonNull | implementation/src/main/java/io/smallrye/reactive/operators/multi/MultiSwitchOnEmptyOp.java:19 | succeeds exactly for a non-null reference and returns it; a null reference fails with a null-pointer error carrying the given name |
| MultiSwitchOnEmpty.MultiSwitchOnEmptyOp.Create | implementation/src/main/java/io/smallrye/reactive/operators/multi/MultiSwitchOnEmptyOp.java:17-20 | construction fails with a null-pointer error named "alternative" exactly when the alternative is null, and changes no existing object, so nothing is subscribed; otherwise it yields a fresh operator holding both publishers |
| MultiSwitchOnEmpty.MultiSwitchOnEmptyOp.Subscribe | implementation/src/main/java/io/smallrye/reactive/operators/multi/MultiSwitchOnEmptyOp.java:22-27 | a fresh subscriber with a clear flag, bound to the downstream and the alternative, is first handed to the downstream with `onSubscribe` and then that same object is subscribed to the upstream; these two calls, in this order, are the only calls made |
| MultiSwitchOnEmpty.SwitchIfEmptySubscriber.constructor | implementation/src/main/java/io/smallrye/reactive/operators/multi/MultiSwitchOnEmptyOp.java:32-38 | a new subscriber has `notEmpty` false, has received nothing, made no call and never subscribed the alternative |
| MultiSwitchOnEmpty.SwitchIfEmptySubscriber.Advance | implementation/src/main/java/io/smallrye/reactive/operators/multi/MultiSwitchOnEmptyOp.java:40-56 | receiving one more signal moves a valid subscriber by exactly one step of the pure machine, adds exactly that step's call to the calls made, and keeps the alternative subscribed at most once |
| MultiSwitchOnEmpty.SwitchIfEmptySubscriber.OnNext | implementation/src/main/java/io/smallrye/reactive/operators/multi/MultiSwitchOnEmptyOp.java:40-46 | `notEmpty` becomes true, exactly one call is made, `onNext` of the downstream with the item unchanged, the alternative count is unchanged, and the invariant linking the object to the pure machine is kept |
| MultiSwitchOnEmpty.SwitchIfEmptySubscriber.OnComplete | implementation/src/main/java/io/smallrye/reactive/operators/multi/MultiSwitchOnEmptyOp.java:48-56 | with no item seen: the flag is set before this same subscriber is subscribed to the alternative, nothing of its own reaches the downstream, and the signals the alternative delivers during that subscription are handled as an already non-empty subscriber would (a nested completion is forwarded, never a second subscription); with an item seen: the only call is `onComplete` of the downstream and the alternative is not subscribed; either way `notEmpty` ends true, the invariant linking the object to the pure machine is kept and the alternative has been subscribed at most once |
| MultiSwitchOnEmpty.SwitchIfEmptySubscriber.DownstreamOfPerformed | implementation/src/main/java/io/smallrye/reactive/operators/multi/MultiSwitchOnEmptyOp.java:45-54 | the calls that carrying out a run of reactions makes to the downstream are exactly the downstream signals of that run, as `onNext`/`onComplete` calls |
| MultiSwitchOnEmpty.SwitchIfEmptySubscriber.Delivers | implementation/src/main/java/io/smallrye/reactive/operators/multi/MultiSwitchOnEmptyOp.java:40-56 | a valid subscriber that has received the upstream's stream, followed by the alternative's stream when the upstream was empty, has called its downstream with exactly the upstream's items and completion if it had an item and the alternative's otherwise, and has subscribed the alternative once for an empty upstream and never otherwise |

## Left out

- The base class `SwitchableSubscriptionSubscriber` is not part of this model: demand accounting and its saturation, the hand-over of outstanding demand to the alternative's subscription, `onSubscribe`, `onError`, `request` and `cancel` are not modelled, and no contract is assumed for them. In particular failure signals (an upstream or alternative failing) and cancellation are not represented.
- `AbstractMultiWithUpstream` is not part of this model; the upstream is taken as a non-null publisher, since whatever check its constructor makes is not visible here.
- Publishers are opaque identities: what they emit and when is not modelled. `upstream.subscribe(parent)` in Java may call back into the subscriber before it returns; here that subscribe call is recorded and the upstream's `onNext`/`onComplete` calls are separate method calls on the subscriber after `Subscribe` returns. Re-entry during `alternative.subscribe(this)` is modelled (the `nested` parameter of `OnComplete`); re-entry into the handlers from the downstream's `onNext`/`onComplete` is not.
- The Reactive Streams rule that signals to one subscriber are serialized is assumed: the handlers are modelled as sequential method calls, and concurrency, atomicity and memory visibility are not modelled.
- `MultiSwitchOnEmptyOp.Subscribe` returns the subscriber it creates (the Java method returns nothing) so that its contract can name that object. Its `actual` parameter has a non-null type, so a null downstream, for which the Java method throws a `NullPointerException` (at the latest at `actual.onSubscribe(parent)`, line 25), is not modelled.
- `MultiSwitchOnEmptyOp.Create` models the Java constructor's failure as a `Result` instead of an exception; the Dafny `constructor` of the class is the part after the check and takes a non-null alternative.
