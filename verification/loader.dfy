/** The helper module's single-flight engine loader (`getFFmpeg`, `unloadFFmpeg`,
    `isFFmpegLoaded`): two module variables, the cached instance and the load promise, driven by
    calls and by the load settling. */
module Loader {
  import opened Wrappers

  /** The state of `loadPromise` once it exists. */
  datatype Promise = Pending | Fulfilled | Rejected(message: string)

  /** `ffmpegInstance` (present or not), `loadPromise`, and how many loads were started. */
  datatype Loader = Loader(instance: bool, promise: Option<Promise>, starts: nat)

  const Initial := Loader(false, None, 0)

  /** What happens to the module: a `getFFmpeg` call, the running load settling (with the
      rejection message, or None on success), or an `unloadFFmpeg` call. */
  datatype Event = Get | Settle(failure: Option<string>) | Unload

  /** What a `getFFmpeg` caller receives: the instance now, a promise still pending, or the
      rejection of the load. */
  datatype Answer = Ready | Waiting | Failed(message: string)

  /** `isFFmpegLoaded` */
  predicate IsLoaded(l: Loader) {
    l.instance
  }

  /** The instance is cached exactly when the load promise has fulfilled. */
  predicate Valid(l: Loader) {
    l.instance <==> l.promise == Some(Fulfilled)
  }

  /** The answer `getFFmpeg` gives in state `l`: the cached instance first, then the existing
      promise, else a new load's promise. */
  function Reply(l: Loader): (a: Answer)
    ensures l.instance ==> a == Ready
    ensures !l.instance && l.promise.None? ==> a == Waiting
    ensures !l.instance && l.promise == Some(Pending) ==> a == Waiting
    ensures !l.instance && l.promise == Some(Fulfilled) ==> a == Ready
    ensures !l.instance && l.promise.Some? && l.promise.value.Rejected? ==> a == Failed(l.promise.value.message)
  {
    if l.instance then Ready
    else match l.promise
      case None => Waiting
      case Some(Pending) => Waiting
      case Some(Fulfilled) => Ready
      case Some(Rejected(m)) => Failed(m)
  }

  /** Settling as written: success caches the instance, failure leaves the rejected promise in
      place. Only a pending load settles. */
  function SettleAsWritten(l: Loader, failure: Option<string>): (r: Loader)
    ensures l.promise != Some(Pending) ==> r == l
    ensures l.promise == Some(Pending) && !l.instance ==>
      Reply(r) == (if failure.None? then Ready else Failed(failure.value))
    ensures r.starts == l.starts && (Valid(l) ==> Valid(r))
  {
    if l.promise != Some(Pending) then l
    else if failure.None? then l.(instance := true, promise := Some(Fulfilled))
    else l.(promise := Some(Rejected(failure.value)))
  }

  /** Settling as evidently intended: a failed load also clears `loadPromise`, so that the next
      call tries again. */
  function SettleCorrected(l: Loader, failure: Option<string>): (r: Loader)
    ensures l.promise != Some(Pending) ==> r == l
    ensures l.promise == Some(Pending) && failure.None? ==> IsLoaded(r) && Reply(r) == Ready
    ensures l.promise == Some(Pending) && failure.Some? && !l.instance ==>
      Reply(r) == Waiting && Slack(r) == 1
    ensures r.starts == l.starts && (Valid(l) ==> Valid(r))
  {
    if l.promise != Some(Pending) then l
    else if failure.None? then l.(instance := true, promise := Some(Fulfilled))
    else l.(promise := None)
  }

  /** One event; `corrected` selects the settling rule. */
  function Next(l: Loader, e: Event, corrected: bool): (r: Loader)
    ensures e.Get? ==> r.instance == l.instance && (l.instance || r.promise.Some?)
    ensures e.Get? ==> (r.starts == l.starts + 1 <==> !l.instance && l.promise.None?)
    ensures e.Get? && (l.instance || l.promise.Some?) ==> r == l
    ensures e.Unload? && l.instance ==> r == Loader(false, None, l.starts)
    ensures e.Unload? && !l.instance ==> r == l
    ensures !e.Get? ==> r.starts == l.starts
  {
    match e
    case Get =>
      if l.instance || l.promise.Some? then l
      else l.(promise := Some(Pending), starts := l.starts + 1)
    case Settle(f) => if corrected then SettleCorrected(l, f) else SettleAsWritten(l, f)
    case Unload => if l.instance then Loader(false, None, l.starts) else l
  }

  function Replay(l: Loader, events: seq<Event>, corrected: bool): Loader
    decreases |events|
  {
    if |events| == 0 then l else Replay(Next(l, events[0], corrected), events[1..], corrected)
  }

  /** Both settling rules keep the instance and the promise in step. */
  lemma NextKeepsValid(l: Loader, e: Event, corrected: bool)
    requires Valid(l)
    ensures Valid(Next(l, e, corrected))
  {
  }

  lemma {:induction false} ReplayKeepsValid(l: Loader, events: seq<Event>, corrected: bool)
    requires Valid(l)
    ensures Valid(Replay(l, events, corrected))
    decreases |events|
  {
    if |events| > 0 {
      NextKeepsValid(l, events[0], corrected);
      ReplayKeepsValid(Next(l, events[0], corrected), events[1..], corrected);
    }
  }

  function Count(events: seq<Event>, e: Event): nat
    decreases |events|
  {
    if |events| == 0 then 0 else (if events[0] == e then 1 else 0) + Count(events[1..], e)
  }

  /** The settlements that reported a failure. */
  function Failures(events: seq<Event>): nat
    decreases |events|
  {
    if |events| == 0 then 0
    else (if events[0].Settle? && events[0].failure.Some? then 1 else 0) + Failures(events[1..])
  }

  /** 1 when a `getFFmpeg` call would start a load right now. */
  function Slack(l: Loader): nat {
    if !l.instance && l.promise.None? then 1 else 0
  }

  /** Single flight as written: a new load starts only when neither variable is set, and only
      `unloadFFmpeg` after a success clears them, so loads started are bounded by the
      unloads. */
  lemma {:induction false} StartsBounded(l: Loader, events: seq<Event>)
    requires Valid(l)
    ensures var r := Replay(l, events, false);
      r.starts + Slack(r) <= l.starts + Slack(l) + Count(events, Unload)
    decreases |events|
  {
    if |events| > 0 {
      var l1 := Next(l, events[0], false);
      NextKeepsValid(l, events[0], false);
      StartsBounded(l1, events[1..]);
    }
  }

  /** From a fresh module, any interleaving of calls and settlements starts at most one load
      per `unloadFFmpeg`, plus the first. */
  lemma AtMostOneLoadPerReset(events: seq<Event>)
    ensures Replay(Initial, events, false).starts <= 1 + Count(events, Unload)
  {
    StartsBounded(Initial, events);
  }

  /** As written, a rejected load is permanent: with no instance cached, no sequence of calls,
      settlements or unloads changes anything, and every caller gets the same rejection. */
  lemma {:induction false} RejectionIsPermanent(l: Loader, events: seq<Event>, m: string)
    requires !l.instance && l.promise == Some(Rejected(m))
    ensures Replay(l, events, false) == l
    ensures Reply(Replay(l, events, false)) == Failed(m)
    decreases |events|
  {
    if |events| > 0 {
      assert Next(l, events[0], false) == l;
      RejectionIsPermanent(l, events[1..], m);
    }
  }

  /** Finding, as written: the first load fails, and neither a retry nor an unload helps. */
  lemma FirstFailureSticks()
    ensures var l := Replay(Initial, [Get, Settle(Some("network error")), Unload, Get], false);
      l == Loader(false, Some(Rejected("network error")), 1) && Reply(l) == Failed("network error")
  {
    var l1 := Next(Initial, Get, false);
    var l2 := Next(l1, Settle(Some("network error")), false);
    assert l2 == Loader(false, Some(Rejected("network error")), 1);
    RejectionIsPermanent(l2, [Unload, Get], "network error");
    assert [Get, Settle(Some("network error")), Unload, Get][1..][1..] == [Unload, Get];
  }

  /** Corrected: after a failed load the next call starts a new one. */
  lemma RetryAfterFailure(l: Loader, m: string)
    requires l.promise == Some(Pending) && !l.instance
    ensures var r := Replay(l, [Settle(Some(m)), Get], true);
      r.starts == l.starts + 1 && r.promise == Some(Pending) && Reply(r) == Waiting
  {
    var evs := [Settle(Some(m)), Get];
    var l1 := Next(l, Settle(Some(m)), true);
    assert l1 == l.(promise := None);
    assert evs[1..] == [Get];
    assert evs[1..][1..] == [];
    assert Replay(l, evs, true) == Replay(l1, [Get], true);
    assert Replay(l1, [Get], true) == Next(l1, Get, true);
  }

  /** The corrected loader is still single-flight: each start is paid for by the first call,
      an unload or a failure. */
  lemma {:induction false} StartsBoundedCorrected(l: Loader, events: seq<Event>)
    requires Valid(l)
    ensures var r := Replay(l, events, true);
      r.starts + Slack(r) <= l.starts + Slack(l) + Count(events, Unload) + Failures(events)
    decreases |events|
  {
    if |events| > 0 {
      var l1 := Next(l, events[0], true);
      NextKeepsValid(l, events[0], true);
      StartsBoundedCorrected(l1, events[1..]);
    }
  }

  /** Calls made while a load is in flight share it: any number of calls start one load. */
  lemma {:induction false} GetsShareOneLoad(l: Loader, n: nat, corrected: bool)
    requires !l.instance && l.promise.None?
    ensures var r := Replay(l, seq(n + 1, _ => Get), corrected);
      r.starts == l.starts + 1 && r.promise == Some(Pending)
  {
    var l1 := Next(l, Get, corrected);
    assert seq(n + 1, _ => Get)[1..] == seq(n, _ => Get);
    GetsIdle(l1, n, corrected);
  }

  lemma {:induction false} GetsIdle(l: Loader, n: nat, corrected: bool)
    requires l.promise.Some?
    ensures Replay(l, seq(n, _ => Get), corrected) == l
    decreases n
  {
    if n > 0 {
      assert seq(n, _ => Get)[0] == Get;
      assert seq(n, _ => Get)[1..] == seq(n - 1, _ => Get);
      GetsIdle(l, n - 1, corrected);
    }
  }

  /** After a successful load, `unloadFFmpeg` clears both variables: the engine reports not
      loaded and the next call starts a fresh load. */
  lemma UnloadThenReload(l: Loader, corrected: bool)
    requires Valid(l) && IsLoaded(l)
    ensures var u := Next(l, Unload, corrected);
      && !IsLoaded(u) && u.promise.None?
      && Next(u, Get, corrected).starts == l.starts + 1
  {
  }
}
