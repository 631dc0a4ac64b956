/** What OleasterRobolectricRunner does around each Oleaster spec: it wraps the specs into
    RoboSpecs, and for one spec it swaps the context class loader, runs beforeTest, fires the
    suite's before-callbacks for the first spec, runs the spec (or reports it ignored), fires
    the after-callbacks for the last spec, tears the application down and restores the threads.
    The hooks it calls are recorded as events in a trace. */
module OleasterRunner {
  import opened Host
  import opened Caches

  // ---------------------------------------------------------------- specs

  /** The code block of an Oleaster `it`. */
  type Block(==)

  /** An Oleaster Spec: its description and, unless it is pending, its block. */
  datatype Spec = Spec(description: string, block: Option<Block>)

  /** List.indexOf: the position of the first element equal to `x`, or -1 when there is none. */
  function IndexOf<T(==)>(s: seq<T>, x: T): (r: int)
    ensures -1 <= r < |s|
    ensures r == -1 <==> x !in s
    ensures 0 <= r ==> s[r] == x && x !in s[..r]
  {
    if |s| == 0 then -1
    else if s[0] == x then 0
    else
      var i := IndexOf(s[1..], x);
      if i == -1 then -1
      else
        assert s[..i + 1] == [s[0]] + s[1..][..i];
        i + 1
  }

  /** `suiteHasNoSpecs || isFirstSpec`. */
  predicate FiresBeforeCallbacks(specs: seq<Spec>, spec: Spec)
  {
    |specs| == 0 || IndexOf(specs, spec) == 0
  }

  /** `suiteHasNoSpecs || isLastSpec`. */
  predicate FiresAfterCallbacks(specs: seq<Spec>, spec: Spec)
  {
    |specs| == 0 || IndexOf(specs, spec) == |specs| - 1
  }

  /** The before-callbacks fire exactly when the suite has no specs or the spec is its first. */
  lemma FiresBeforeCallbacksIff(specs: seq<Spec>, spec: Spec)
    ensures FiresBeforeCallbacks(specs, spec) <==> |specs| == 0 || specs[0] == spec
  {
  }

  /** The after-callbacks fire exactly when the suite has no specs or the spec's first
      occurrence is the last position: a spec listed twice never fires them. */
  lemma FiresAfterCallbacksIff(specs: seq<Spec>, spec: Spec)
    ensures FiresAfterCallbacks(specs, spec) <==>
              |specs| == 0 || (specs[|specs| - 1] == spec && spec !in specs[..|specs| - 1])
  {
  }

  /** A suite with a single spec runs both its before- and its after-callbacks. */
  lemma SingleSpecSuiteFiresBoth(spec: Spec)
    ensures FiresBeforeCallbacks([spec], spec) && FiresAfterCallbacks([spec], spec)
  {
  }

  /** A spec that is not in its (non-empty) suite's list fires neither. */
  lemma UnlistedSpecFiresNeither(specs: seq<Spec>, spec: Spec)
    requires |specs| > 0 && spec !in specs
    ensures !FiresBeforeCallbacks(specs, spec) && !FiresAfterCallbacks(specs, spec)
  {
  }

  /** Running every spec of a suite whose specs are distinct fires the before-callbacks for
      the first spec only and the after-callbacks for the last spec only. */
  lemma {:induction false} DistinctSuiteFiresOnce(specs: seq<Spec>, i: nat)
    requires forall a, b :: 0 <= a < b < |specs| ==> specs[a] != specs[b]
    requires i < |specs|
    ensures FiresBeforeCallbacks(specs, specs[i]) <==> i == 0
    ensures FiresAfterCallbacks(specs, specs[i]) <==> i == |specs| - 1
  {
    var n := |specs|;
    if i < n - 1 {
      assert specs[..n - 1][i] == specs[i];
    }
  }

  // ---------------------------------------------------------------- the trace

  /** The hooks runChild calls, in the order of the source. */
  datatype Event =
    | BeforeTestStarted          // beforeTest(sandbox, spec)
    | BeforeTestFailed           // its Throwable, printed and swallowed
    | BeforeCallbacks            // runBeforeCallbacks
    | BeforeEach                 // runBeforeEachCallbacks
    | Leaf(contextClassLoader: ClassLoader, mainThread: Thread)  // runLeaf, with the thread state it runs under
    | AfterEach                  // runAfterEachCallbacks
    | Ignored                    // notifier.fireTestIgnored
    | AfterCallbacks             // runAfterCallbacks
    | TearDown(mainThread: Thread)  // tearDownApplication, with the main thread it runs under
    | ResetStaticState           // resetStaticState, in afterTest
    | Cleared                    // finallyAfterTest

  /** The phase an event belongs to; a run's events come in strictly increasing rank. */
  function Rank(e: Event): nat
  {
    match e
    case BeforeTestStarted => 0
    case BeforeTestFailed => 1
    case BeforeCallbacks => 2
    case BeforeEach => 3
    case Leaf(_, _) => 4
    case AfterEach => 5
    case Ignored => 6
    case AfterCallbacks => 7
    case TearDown(_) => 8
    case ResetStaticState => 9
    case Cleared => 10
  }

  ghost predicate StrictlyRanked(s: seq<Event>)
  {
    forall i, j :: 0 <= i < j < |s| ==> Rank(s[i]) < Rank(s[j])
  }

  /** Where beforeTest stops. It assigns the spec's hooks interface first, its test lifecycle
      next, and then drives the host; any of those steps may throw. */
  datatype BeforeTestRun =
    | Completes
    | FailsGettingHooks          // getHooksInterface throws: the hooks field is not assigned
    | FailsBeforeLifecycle       // hooks assigned, the lifecycle is not
    | FailsAfterLifecycle        // both assigned, a later step throws

  /** The callbacks runChild calls between the thread switches. Each runs test code and may
      throw; nothing in runChild catches what they throw. */
  datatype Callback =
    | RunBeforeCallbacks
    | RunBeforeEachCallbacks
    | RunAfterEachCallbacks
    | RunAfterCallbacks

  /** The event a callback records when it is called. */
  function CallbackEvent(c: Callback): Event
  {
    match c
    case RunBeforeCallbacks => BeforeCallbacks
    case RunBeforeEachCallbacks => BeforeEach
    case RunAfterEachCallbacks => AfterEach
    case RunAfterCallbacks => AfterCallbacks
  }

  /** What the host and the test code do during one runChild: how beforeTest ends, the hooks
      interface and test lifecycle it creates and the main thread its host calls leave, which
      callback throws (if any), whether afterTest's tearDownApplication and resetStaticState
      throw, and the main thread that afterTest's host calls leave. */
  datatype HostRun = HostRun(
    beforeTest: BeforeTestRun, hooks: Hooks, lifecycle: TestLifecycle, mainThreadAfterBeforeTest: Thread,
    throwingCallback: Option<Callback>, tearDownThrows: bool, resetThrows: bool,
    mainThreadAfterAfterTest: Thread)

  /** How runChild ends: normally, or with an exception it does not catch. */
  datatype RunOutcome = Completed | Threw(failure: Failure)

  datatype Failure =
    | NullHooksInterface         // getMainThread on a spec whose hooks field is still null
    | CallbackFailed             // the exception of a callback
    | TearDownFailed             // the exception of tearDownApplication, after the static reset
    | StaticResetFailed          // the exception of resetStaticState; it replaces tearDown's

  /** The spec's hooks interface once beforeTest has returned or thrown. */
  function HooksAfterBeforeTest(prior: Option<Hooks>, host: HostRun): Option<Hooks>
  {
    if host.beforeTest.FailsGettingHooks? then prior else Some(host.hooks)
  }

  /** The spec's test lifecycle once beforeTest has returned or thrown. */
  function LifecycleAfterBeforeTest(prior: Option<TestLifecycle>, host: HostRun): Option<TestLifecycle>
  {
    if host.beforeTest.Completes? || host.beforeTest.FailsAfterLifecycle? then Some(host.lifecycle) else prior
  }

  /** The main thread once beforeTest has returned or thrown: only its host calls after the
      lifecycle is assigned can change it. */
  function MainThreadAfterBeforeTest(prior: Thread, host: HostRun): Thread
  {
    if host.beforeTest.Completes? || host.beforeTest.FailsAfterLifecycle? then host.mainThreadAfterBeforeTest else prior
  }

  /** Everything that decides the hooks one runChild calls: the suite's spec list, the spec,
      how beforeTest ends, whether the spec then has a hooks interface, which callback throws,
      whether tearDown and the static reset throw, the class loader and thread the spec's body
      runs under, and the main thread runChild reads after beforeTest and puts back before
      afterTest. */
  datatype Situation = Situation(
    suiteSpecs: seq<Spec>, spec: Spec, beforeTest: BeforeTestRun, hooksPresent: bool,
    throwingCallback: Option<Callback>, tearDownThrows: bool, resetThrows: bool, sandboxLoader: ClassLoader,
    currentThread: Thread, restoredMainThread: Thread)

  /** The callback `throwing` names is one that runChild calls: the before- and after-callbacks
      when it asks for them, before-each and after-each when the spec has a block. */
  predicate CallbackThrows(fireBefore: bool, block: Option<Block>, fireAfter: bool, throwing: Option<Callback>)
  {
    || (throwing == Some(RunBeforeCallbacks) && fireBefore)
    || (throwing == Some(RunBeforeEachCallbacks) && block.Some?)
    || (throwing == Some(RunAfterEachCallbacks) && block.Some?)
    || (throwing == Some(RunAfterCallbacks) && fireAfter)
  }

  /** A callback of the run throws. */
  predicate CallbackFails(s: Situation)
  {
    CallbackThrows(FiresBeforeCallbacks(s.suiteSpecs, s.spec), s.spec.block,
                   FiresAfterCallbacks(s.suiteSpecs, s.spec), s.throwingCallback)
  }

  /** The run gets as far as the phase of `e`: nothing after a throwing callback runs. */
  predicate Reached(s: Situation, e: Event)
  {
    !CallbackFails(s) || Rank(e) <= Rank(CallbackEvent(s.throwingCallback.value))
  }

  /** Which events a run in situation `s` produces, event by event. */
  ghost predicate Happens(s: Situation, e: Event)
  {
    match e
    case BeforeTestStarted => true
    case BeforeTestFailed => !s.beforeTest.Completes?
    case BeforeCallbacks => s.hooksPresent && FiresBeforeCallbacks(s.suiteSpecs, s.spec) && Reached(s, e)
    case BeforeEach => s.hooksPresent && s.spec.block.Some? && Reached(s, e)
    case Leaf(loader, thread) =>
      && s.hooksPresent && s.spec.block.Some? && Reached(s, e)
      && loader == s.sandboxLoader && thread == s.currentThread
    case AfterEach => s.hooksPresent && s.spec.block.Some? && Reached(s, e)
    case Ignored => s.hooksPresent && s.spec.block.None? && Reached(s, e)
    case AfterCallbacks => s.hooksPresent && FiresAfterCallbacks(s.suiteSpecs, s.spec) && Reached(s, e)
    case TearDown(thread) => s.hooksPresent && !CallbackFails(s) && thread == s.restoredMainThread
    case ResetStaticState => s.hooksPresent && !CallbackFails(s)
    case Cleared => s.hooksPresent && !CallbackFails(s) && !s.tearDownThrows && !s.resetThrows
  }

  function Opt(c: bool, e: Event): seq<Event>
  {
    if c then [e] else []
  }

  /** `r` up to and including the first occurrence of `e`; all of `r` when `e` does not occur. */
  function UpTo(r: seq<Event>, e: Event): seq<Event>
  {
    if |r| == 0 then []
    else if r[0] == e then [e]
    else [r[0]] + UpTo(r[1..], e)
  }

  /** The events one runChild appends, built in the order of the source: beforeTest's first;
      without a hooks interface nothing more; a throwing callback ends the run. */
  function RunChildEvents(s: Situation): (r: seq<Event>)
    ensures |r| > 0 && r[0] == BeforeTestStarted
  {
    BeforeTestEvents(s.beforeTest)
    + if !s.hooksPresent then []
      else if CallbackFails(s) then UpTo(SpecEvents(s), CallbackEvent(s.throwingCallback.value))
      else SpecEvents(s) + AfterTestEvents(s.tearDownThrows, s.resetThrows, s.restoredMainThread)
  }

  function BeforeTestEvents(run: BeforeTestRun): seq<Event>
  {
    [BeforeTestStarted] + Opt(!run.Completes?, BeforeTestFailed)
  }

  /** The callbacks and the body, run while the sandbox's loader and the current thread are set. */
  function SpecEvents(s: Situation): seq<Event>
  {
    CallbackEvents(FiresBeforeCallbacks(s.suiteSpecs, s.spec), s.spec.block,
                   Leaf(s.sandboxLoader, s.currentThread), FiresAfterCallbacks(s.suiteSpecs, s.spec))
  }

  /** The before-callbacks when asked for, the block between before-each and after-each (with
      `leaf` recording the block itself) or the ignore notice, the after-callbacks when asked for. */
  function CallbackEvents(fireBefore: bool, block: Option<Block>, leaf: Event, fireAfter: bool): seq<Event>
  {
    Opt(fireBefore, BeforeCallbacks) + BlockEvents(block, leaf) + Opt(fireAfter, AfterCallbacks)
  }

  /** The block between before-each and after-each, or the ignore notice. */
  function BlockEvents(block: Option<Block>, leaf: Event): seq<Event>
  {
    if block.Some? then [BeforeEach, leaf, AfterEach] else [Ignored]
  }

  /** afterTest under the main thread `mainThread`, then finallyAfterTest unless afterTest
      threw: tearDown or the static reset in its finally block. */
  function AfterTestEvents(tearDownThrows: bool, resetThrows: bool, mainThread: Thread): seq<Event>
  {
    [TearDown(mainThread), ResetStaticState] + Opt(!tearDownThrows && !resetThrows, Cleared)
  }

  /** beforeTest is always recorded; its failure is recorded right after it. */
  lemma BeforeTestEventsFacts(run: BeforeTestRun)
    ensures forall e :: e in BeforeTestEvents(run) <==>
              e == BeforeTestStarted || (e == BeforeTestFailed && !run.Completes?)
    ensures StrictlyRanked(BeforeTestEvents(run)) && RanksWithin(BeforeTestEvents(run), 0, 2)
  {
    if run.Completes? {
      assert BeforeTestEvents(run) == [BeforeTestStarted];
    } else {
      assert BeforeTestEvents(run) == [BeforeTestStarted, BeforeTestFailed];
    }
  }

  /** The before-callbacks when they fire, then the block between before-each and after-each
      or the ignore notice, then the after-callbacks when they fire. */
  lemma CallbackEventsFacts(fireBefore: bool, block: Option<Block>, leaf: Event, fireAfter: bool)
    requires leaf.Leaf?
    ensures forall e :: e in CallbackEvents(fireBefore, block, leaf, fireAfter) <==>
              || (e == BeforeCallbacks && fireBefore)
              || (block.Some? && (e == BeforeEach || e == leaf || e == AfterEach))
              || (block.None? && e == Ignored)
              || (e == AfterCallbacks && fireAfter)
    ensures var r := CallbackEvents(fireBefore, block, leaf, fireAfter);
            StrictlyRanked(r) && RanksWithin(r, 2, 8)
  {
    var first := Opt(fireBefore, BeforeCallbacks);
    var body := BlockEvents(block, leaf);
    var last := Opt(fireAfter, AfterCallbacks);
    OptFacts(fireBefore, BeforeCallbacks, 2, 3);
    BlockEventsFacts(block, leaf);
    OptFacts(fireAfter, AfterCallbacks, 7, 8);
    CallbackEventsMembers(first, body, last);
    CallbackEventsRanked(first, body, last);
  }

  lemma OptFacts(c: bool, e: Event, lo: nat, hi: nat)
    requires lo <= Rank(e) < hi
    ensures forall x :: x in Opt(c, e) <==> c && x == e
    ensures StrictlyRanked(Opt(c, e)) && RanksWithin(Opt(c, e), lo, hi)
  {
  }

  /** A block runs before-each, the leaf and after-each; a missing block gives the ignore notice. */
  lemma BlockEventsFacts(block: Option<Block>, leaf: Event)
    requires leaf.Leaf?
    ensures var body := BlockEvents(block, leaf);
            && (forall x :: x in body <==> if block.Some? then x == BeforeEach || x == leaf || x == AfterEach else x == Ignored)
            && StrictlyRanked(body) && RanksWithin(body, 3, 7)
  {
  }

  lemma CallbackEventsMembers(first: seq<Event>, body: seq<Event>, last: seq<Event>)
    ensures forall e :: e in first + body + last <==> e in first || e in body || e in last
  {
  }

  lemma CallbackEventsRanked(first: seq<Event>, body: seq<Event>, last: seq<Event>)
    requires StrictlyRanked(first) && RanksWithin(first, 2, 3)
    requires StrictlyRanked(body) && RanksWithin(body, 3, 7)
    requires StrictlyRanked(last) && RanksWithin(last, 7, 8)
    ensures StrictlyRanked(first + body + last) && RanksWithin(first + body + last, 2, 8)
  {
    StrictlyRankedAppend(first, body, 2, 3, 7);
    StrictlyRankedAppend(first + body, last, 2, 7, 8);
  }

  lemma SpecEventsFacts(s: Situation)
    ensures forall e :: e in SpecEvents(s) <==>
              || (e == BeforeCallbacks && FiresBeforeCallbacks(s.suiteSpecs, s.spec))
              || (s.spec.block.Some? && (e == BeforeEach || e == Leaf(s.sandboxLoader, s.currentThread) || e == AfterEach))
              || (s.spec.block.None? && e == Ignored)
              || (e == AfterCallbacks && FiresAfterCallbacks(s.suiteSpecs, s.spec))
    ensures StrictlyRanked(SpecEvents(s)) && RanksWithin(SpecEvents(s), 2, 8)
  {
    CallbackEventsFacts(FiresBeforeCallbacks(s.suiteSpecs, s.spec), s.spec.block,
                        Leaf(s.sandboxLoader, s.currentThread), FiresAfterCallbacks(s.suiteSpecs, s.spec));
  }

  /** A callback of the run throws exactly when the throwing callback's event is among the
      spec's events. */
  lemma CallbackFailsIff(s: Situation)
    ensures CallbackFails(s) <==> s.throwingCallback.Some? && CallbackEvent(s.throwingCallback.value) in SpecEvents(s)
  {
    SpecEventsFacts(s);
    if s.throwingCallback.Some? {
      match s.throwingCallback.value {
        case RunBeforeCallbacks =>
        case RunBeforeEachCallbacks =>
        case RunAfterEachCallbacks =>
        case RunAfterCallbacks =>
      }
    }
  }

  /** tearDown, under the given main thread, and the static reset are always recorded;
      finallyAfterTest only when neither threw. */
  lemma AfterTestEventsFacts(tearDownThrows: bool, resetThrows: bool, mainThread: Thread)
    ensures forall e :: e in AfterTestEvents(tearDownThrows, resetThrows, mainThread) <==>
              || e == TearDown(mainThread) || e == ResetStaticState
              || (e == Cleared && !tearDownThrows && !resetThrows)
    ensures var r := AfterTestEvents(tearDownThrows, resetThrows, mainThread);
            StrictlyRanked(r) && RanksWithin(r, 8, 11)
  {
    if tearDownThrows || resetThrows {
      assert AfterTestEvents(tearDownThrows, resetThrows, mainThread) == [TearDown(mainThread), ResetStaticState];
    } else {
      assert AfterTestEvents(tearDownThrows, resetThrows, mainThread) == [TearDown(mainThread), ResetStaticState, Cleared];
    }
  }

  /** Cutting a strictly ranked trace at one of its events keeps exactly the events of no
      greater rank, and ends with that event. */
  lemma UpToFacts(r: seq<Event>, f: Event, lo: nat, hi: nat)
    requires StrictlyRanked(r) && RanksWithin(r, lo, hi) && f in r
    ensures forall e :: e in UpTo(r, f) <==> e in r && Rank(e) <= Rank(f)
    ensures StrictlyRanked(UpTo(r, f)) && RanksWithin(UpTo(r, f), lo, hi)
    ensures |UpTo(r, f)| > 0 && UpTo(r, f)[|UpTo(r, f)| - 1] == f
  {
    UpToMembers(r, f);
    UpToIsPrefix(r, f);
    var p := UpTo(r, f);
    forall i, j | 0 <= i < j < |p|
      ensures Rank(p[i]) < Rank(p[j])
    {
      assert p[i] == r[i] && p[j] == r[j];
    }
  }

  /** The cut is a prefix of the trace. */
  lemma {:induction false} UpToIsPrefix(r: seq<Event>, e: Event)
    ensures |UpTo(r, e)| <= |r| && UpTo(r, e) == r[..|UpTo(r, e)|]
  {
    if |r| > 0 && r[0] != e {
      UpToIsPrefix(r[1..], e);
      var u := UpTo(r[1..], e);
      assert r[..|u| + 1] == [r[0]] + r[1..][..|u|];
    }
  }

  /** The events of no greater rank than an event of a strictly ranked trace are those up to
      it, and it is the last of them. */
  lemma {:induction false} UpToMembers(r: seq<Event>, f: Event)
    requires StrictlyRanked(r) && f in r
    ensures forall e :: e in UpTo(r, f) <==> e in r && Rank(e) <= Rank(f)
    ensures |UpTo(r, f)| > 0 && UpTo(r, f)[|UpTo(r, f)| - 1] == f
  {
    var r0 := r[0];
    if r0 == f {
      forall e | e in r && Rank(e) <= Rank(f)
        ensures e == f
      {
        var i :| 0 <= i < |r| && r[i] == e;
        var ri := r[i];
        assert i == 0 || Rank(r0) < Rank(ri);
      }
    } else {
      var t := r[1..];
      var i :| 0 <= i < |r| && r[i] == f;
      assert t[i - 1] == f;
      assert forall j :: 0 <= j < |t| ==> t[j] == r[j + 1];
      assert forall e :: e in r <==> e == r0 || e in t;
      UpToMembers(t, f);
    }
  }

  /** Cutting `a + b` at an event of `a` is cutting `a`. */
  lemma {:induction false} UpToAppendLeft(a: seq<Event>, b: seq<Event>, e: Event)
    requires e in a
    ensures UpTo(a + b, e) == UpTo(a, e)
  {
    if a[0] == e {
      assert (a + b)[0] == e;
    } else {
      var i :| 0 <= i < |a| && a[i] == e;
      assert a[1..][i - 1] == e;
      assert (a + b)[1..] == a[1..] + b;
      UpToAppendLeft(a[1..], b, e);
    }
  }

  /** Cutting `a + b` at an event `a` lacks keeps all of `a` and cuts `b`. */
  lemma {:induction false} UpToAppendRight(a: seq<Event>, b: seq<Event>, e: Event)
    requires e !in a
    ensures UpTo(a + b, e) == a + UpTo(b, e)
  {
    if |a| == 0 {
      assert a + b == b;
    } else {
      assert (a + b)[0] == a[0] && a[0] in a;
      assert (a + b)[1..] == a[1..] + b;
      UpToAppendRight(a[1..], b, e);
      assert a == [a[0]] + a[1..];
    }
  }

  /** A run produces exactly the events that happen in its situation. */
  lemma RunChildEventsHappen(s: Situation)
    ensures forall e :: e in RunChildEvents(s) <==> Happens(s, e)
  {
    if !s.hooksPresent {
      HooklessRunEventsHappen(s);
    } else if CallbackFails(s) {
      ThrownRunEventsHappen(s);
    } else {
      FullRunEventsHappen(s);
    }
  }

  /** An event happens exactly when it belongs to a phase the run reaches: beforeTest's, the
      callbacks and body up to a throwing callback, or (when no callback throws) afterTest's. */
  lemma HappensByPhase(s: Situation, e: Event)
    ensures Happens(s, e) <==>
              || e in BeforeTestEvents(s.beforeTest)
              || (s.hooksPresent && e in SpecEvents(s) && Reached(s, e))
              || (s.hooksPresent && !CallbackFails(s) && e in AfterTestEvents(s.tearDownThrows, s.resetThrows, s.restoredMainThread))
  {
    BeforeTestEventsFacts(s.beforeTest);
    SpecEventsFacts(s);
    AfterTestEventsFacts(s.tearDownThrows, s.resetThrows, s.restoredMainThread);
  }

  lemma HooklessRunEventsHappen(s: Situation)
    requires !s.hooksPresent
    ensures forall e :: e in RunChildEvents(s) <==> Happens(s, e)
  {
    assert RunChildEvents(s) == BeforeTestEvents(s.beforeTest);
    forall e ensures e in RunChildEvents(s) <==> Happens(s, e) {
      HappensByPhase(s, e);
    }
  }

  lemma ThrownRunEventsHappen(s: Situation)
    requires s.hooksPresent && CallbackFails(s)
    ensures forall e :: e in RunChildEvents(s) <==> Happens(s, e)
  {
    var before := BeforeTestEvents(s.beforeTest);
    var f := CallbackEvent(s.throwingCallback.value);
    SpecEventsFacts(s);
    CallbackFailsIff(s);
    UpToFacts(SpecEvents(s), f, 2, 8);
    var middle := UpTo(SpecEvents(s), f);
    assert RunChildEvents(s) == before + middle;
    forall e ensures e in RunChildEvents(s) <==> Happens(s, e) {
      HappensByPhase(s, e);
      assert e in before + middle <==> e in before || e in middle;
      AfterTestEventsFacts(s.tearDownThrows, s.resetThrows, s.restoredMainThread);
    }
  }

  lemma FullRunEventsHappen(s: Situation)
    requires s.hooksPresent && !CallbackFails(s)
    ensures forall e :: e in RunChildEvents(s) <==> Happens(s, e)
  {
    var before := BeforeTestEvents(s.beforeTest);
    var middle := SpecEvents(s);
    var after := AfterTestEvents(s.tearDownThrows, s.resetThrows, s.restoredMainThread);
    assert RunChildEvents(s) == before + (middle + after);
    forall e ensures e in RunChildEvents(s) <==> Happens(s, e) {
      HappensByPhase(s, e);
      assert e in before + (middle + after) <==> e in before || e in middle || e in after;
    }
  }

  /** How runChild ends. */
  function RunChildOutcome(hooksPresent: bool, callbackThrows: bool, tearDownThrows: bool, resetThrows: bool)
    : (r: RunOutcome)
    ensures r == Completed <==> hooksPresent && !callbackThrows && !tearDownThrows && !resetThrows
    ensures r == Threw(NullHooksInterface) <==> !hooksPresent
    ensures r == Threw(CallbackFailed) <==> hooksPresent && callbackThrows
    ensures r == Threw(TearDownFailed) <==> hooksPresent && !callbackThrows && tearDownThrows && !resetThrows
    ensures r == Threw(StaticResetFailed) <==> hooksPresent && !callbackThrows && resetThrows
  {
    if !hooksPresent then Threw(NullHooksInterface)
    else if callbackThrows then Threw(CallbackFailed)
    else if resetThrows then Threw(StaticResetFailed)
    else if tearDownThrows then Threw(TearDownFailed)
    else Completed
  }

  /** Every event of `s` belongs to a phase in [lo, hi). */
  ghost predicate RanksWithin(s: seq<Event>, lo: nat, hi: nat)
  {
    forall e :: e in s ==> lo <= Rank(e) < hi
  }

  lemma {:induction false} StrictlyRankedAppend(a: seq<Event>, b: seq<Event>, lo: nat, mid: nat, hi: nat)
    requires lo <= mid <= hi
    requires StrictlyRanked(a) && RanksWithin(a, lo, mid)
    requires StrictlyRanked(b) && RanksWithin(b, mid, hi)
    ensures StrictlyRanked(a + b) && RanksWithin(a + b, lo, hi)
  {
    assert forall e :: e in a + b ==> e in a || e in b;
    forall i, j | 0 <= i < j < |a + b|
      ensures Rank((a + b)[i]) < Rank((a + b)[j])
    {
      if i < |a| && j >= |a| {
        assert a[i] in a && b[j - |a|] in b;
      }
    }
  }

  /** The phases of a run never interleave: beforeTest, then the before-callbacks, then the
      spec's block (before-each, leaf, after-each) or its ignore notice, then the
      after-callbacks, then tearDown, the static reset and finallyAfterTest. With the
      membership fact of RunChildEventsHappen this fixes the trace completely. */
  lemma {:induction false} RunChildEventsInPhaseOrder(s: Situation)
    ensures StrictlyRanked(RunChildEvents(s))
  {
    var before := BeforeTestEvents(s.beforeTest);
    var middle := SpecEvents(s);
    BeforeTestEventsFacts(s.beforeTest);
    SpecEventsFacts(s);
    if !s.hooksPresent {
      StrictlyRankedAppend(before, [], 0, 2, 11);
    } else if CallbackFails(s) {
      CallbackFailsIff(s);
      UpToFacts(middle, CallbackEvent(s.throwingCallback.value), 2, 8);
      StrictlyRankedAppend(before, UpTo(middle, CallbackEvent(s.throwingCallback.value)), 0, 2, 8);
    } else {
      var after := AfterTestEvents(s.tearDownThrows, s.resetThrows, s.restoredMainThread);
      AfterTestEventsFacts(s.tearDownThrows, s.resetThrows, s.restoredMainThread);
      StrictlyRankedAppend(middle, after, 2, 8, 11);
      StrictlyRankedAppend(before, middle + after, 0, 2, 11);
    }
  }

  /** A throwing callback ends the run: its event is the last one, and neither afterTest nor
      finallyAfterTest runs. */
  lemma ThrowingCallbackEndsRun(s: Situation)
    requires s.hooksPresent && CallbackFails(s)
    ensures var r := RunChildEvents(s);
            && r[|r| - 1] == CallbackEvent(s.throwingCallback.value)
            && forall e :: e in r ==> !e.TearDown? && e != ResetStaticState && e != Cleared
  {
    var before := BeforeTestEvents(s.beforeTest);
    var f := CallbackEvent(s.throwingCallback.value);
    BeforeTestEventsFacts(s.beforeTest);
    SpecEventsFacts(s);
    CallbackFailsIff(s);
    UpToFacts(SpecEvents(s), f, 2, 8);
    var middle := UpTo(SpecEvents(s), f);
    assert RunChildEvents(s) == before + middle;
    StrictlyRankedAppend(before, middle, 0, 2, 8);
    RanksBelowAfterTest(RunChildEvents(s));
  }

  /** A trace whose events all rank below tearDown has no afterTest or finallyAfterTest event. */
  lemma RanksBelowAfterTest(r: seq<Event>)
    requires RanksWithin(r, 0, 8)
    ensures forall e :: e in r ==> !e.TearDown? && e != ResetStaticState && e != Cleared
  {
  }

  /** A callback that the run does not call cannot throw: the run is the same as one where no
      callback throws. */
  lemma UncalledCallbackCannotThrow(s: Situation)
    requires s.throwingCallback.Some? && CallbackEvent(s.throwingCallback.value) !in SpecEvents(s)
    ensures RunChildEvents(s) == RunChildEvents(s.(throwingCallback := None))
  {
    CallbackFailsIff(s);
  }

  /** `a` occurs in `r` before `b`. */
  ghost predicate Precedes(r: seq<Event>, a: Event, b: Event)
  {
    exists i, j :: 0 <= i < j < |r| && r[i] == a && r[j] == b
  }

  /** In a strictly ranked trace no event occurs twice, and of two events that occur the one
      of lower rank comes first. */
  lemma RankedTraceOrder(r: seq<Event>, a: Event, b: Event)
    requires StrictlyRanked(r)
    ensures forall i, j :: 0 <= i < |r| && 0 <= j < |r| && r[i] == r[j] ==> i == j
    ensures a in r && b in r && Rank(a) < Rank(b) ==> Precedes(r, a, b)
  {
    if a in r && b in r && Rank(a) < Rank(b) {
      var i :| 0 <= i < |r| && r[i] == a;
      var j :| 0 <= j < |r| && r[j] == b;
    }
  }

  /** A spec with a block is not reported ignored, and runs before-each, leaf and after-each,
      in that order, as far as no callback has thrown before; a spec without one runs none of
      them and is reported ignored once unless the before-callbacks threw. (Only when
      beforeTest left a hooks interface does the run get that far.) */
  lemma BlockDecidesBody(s: Situation)
    requires s.hooksPresent
    ensures var r := RunChildEvents(s);
            var leaf := Leaf(s.sandboxLoader, s.currentThread);
            s.spec.block.Some? ==>
              && Ignored !in r
              && (BeforeEach in r <==> Reached(s, BeforeEach))
              && (leaf in r <==> Reached(s, leaf))
              && (AfterEach in r <==> Reached(s, AfterEach))
              && (leaf in r ==> Precedes(r, BeforeEach, leaf))
              && (AfterEach in r ==> Precedes(r, leaf, AfterEach))
    ensures var r := RunChildEvents(s);
            s.spec.block.None? ==>
              && (Ignored in r <==> Reached(s, Ignored))
              && (forall i, j :: 0 <= i < j < |r| && r[i] == Ignored ==> r[j] != Ignored)
              && BeforeEach !in r && AfterEach !in r && (forall e :: e in r ==> !e.Leaf?)
  {
    var r := RunChildEvents(s);
    var leaf := Leaf(s.sandboxLoader, s.currentThread);
    RunChildEventsInPhaseOrder(s);
    RunChildEventsHappen(s);
    assert Happens(s, BeforeEach) == (s.spec.block.Some? && Reached(s, BeforeEach));
    assert Happens(s, leaf) == (s.spec.block.Some? && Reached(s, leaf));
    assert Happens(s, AfterEach) == (s.spec.block.Some? && Reached(s, AfterEach));
    RankedTraceOrder(r, BeforeEach, leaf);
    RankedTraceOrder(r, leaf, AfterEach);
    assert Happens(s, Ignored) == (s.spec.block.None? && Reached(s, Ignored));
  }

  /** An exception from beforeTest is swallowed: as long as the spec got a hooks interface, the
      callbacks, the body and afterTest run exactly as if beforeTest had completed. */
  lemma BeforeTestFailureIsSwallowed(s: Situation)
    requires s.hooksPresent && !s.beforeTest.Completes?
    ensures RunChildEvents(s)
         == [BeforeTestStarted, BeforeTestFailed] + RunChildEvents(s.(beforeTest := Completes))[1..]
  {
  }

  lemma AppendAssoc3(a: seq<Event>, b: seq<Event>, c: seq<Event>)
    ensures a + b + c == a + (b + c)
  {
  }

  lemma AppendAssoc4(a: seq<Event>, b: seq<Event>, c: seq<Event>, d: seq<Event>)
    ensures a + b + c + d == a + (b + (c + d))
  {
  }

  // ---------------------------------------------------------------- runtime state

  /** The JVM state runChild touches: the current thread's context class loader, the
      simulated Android main thread, and the trace of hooks called so far. */
  class Process {
    var contextClassLoader: ClassLoader
    var mainThread: Thread
    const currentThread: Thread
    var trace: seq<Event>

    constructor (contextClassLoader: ClassLoader, mainThread: Thread, currentThread: Thread)
      ensures this.contextClassLoader == contextClassLoader && this.mainThread == mainThread
      ensures this.currentThread == currentThread && trace == []
    {
      this.contextClassLoader := contextClassLoader;
      this.mainThread := mainThread;
      this.currentThread := currentThread;
      trace := [];
    }
  }

  /** A spec together with the manifest, SDK config and config of its runner, and the
      per-test objects beforeTest assigns and finallyAfterTest clears. */
  class RoboSpec {
    const spec: Spec
    const appManifest: AndroidManifest
    const sdkConfig: SdkConfig
    const config: Config
    var testLifecycle: Option<TestLifecycle>
    var parallelUniverseInterface: Option<Hooks>

    constructor (spec: Spec, appManifest: AndroidManifest, sdkConfig: SdkConfig, config: Config)
      ensures this.spec == spec && this.appManifest == appManifest
      ensures this.sdkConfig == sdkConfig && this.config == config
      ensures testLifecycle == None && parallelUniverseInterface == None
    {
      this.spec := spec;
      this.appManifest := appManifest;
      this.sdkConfig := sdkConfig;
      this.config := config;
      testLifecycle := None;
      parallelUniverseInterface := None;
    }
  }

  // ---------------------------------------------------------------- the runner

  class OleasterRobolectricRunner {
    const robolectricClassLoader: ClassLoader   // sandbox.getRobolectricClassLoader()
    const sdkConfig: SdkConfig                  // sandbox.getSdkConfig()
    const config: Config
    const androidManifest: AndroidManifest

    constructor (robolectricClassLoader: ClassLoader, sdkConfig: SdkConfig, config: Config, androidManifest: AndroidManifest)
      ensures this.robolectricClassLoader == robolectricClassLoader && this.sdkConfig == sdkConfig
      ensures this.config == config && this.androidManifest == androidManifest
    {
      this.robolectricClassLoader := robolectricClassLoader;
      this.sdkConfig := sdkConfig;
      this.config := config;
      this.androidManifest := androidManifest;
    }

    /** One new RoboSpec per spec of the parent runner, in the same order, each carrying this
        runner's manifest, SDK config and config. */
    method GetChildren(parentSpecs: seq<Spec>) returns (children: seq<RoboSpec>)
      ensures |children| == |parentSpecs|
      ensures forall i :: 0 <= i < |children| ==>
                && children[i].spec == parentSpecs[i]
                && children[i].appManifest == androidManifest
                && children[i].sdkConfig == sdkConfig
                && children[i].config == config
      ensures forall i :: 0 <= i < |children| ==>
                children[i].testLifecycle == None && children[i].parallelUniverseInterface == None
      ensures forall i :: 0 <= i < |children| ==> fresh(children[i])
      ensures forall i, j :: 0 <= i < j < |children| ==> children[i] != children[j]
    {
      children := [];
      for k := 0 to |parentSpecs|
        invariant |children| == k
        invariant forall i :: 0 <= i < k ==>
                    && children[i].spec == parentSpecs[i]
                    && children[i].appManifest == androidManifest
                    && children[i].sdkConfig == sdkConfig
                    && children[i].config == config
        invariant forall i :: 0 <= i < k ==>
                    children[i].testLifecycle == None && children[i].parallelUniverseInterface == None
        invariant forall i :: 0 <= i < k ==> fresh(children[i])
        invariant forall i, j :: 0 <= i < j < k ==> children[i] != children[j]
      {
        var child := new RoboSpec(parentSpecs[k], androidManifest, sdkConfig, config);
        children := children + [child];
      }
    }

    /** beforeTest, kept opaque: it assigns the spec's hooks interface and test lifecycle as far
        as it gets, its host calls after that may move the main thread, and it reports whether
        it threw. */
    method BeforeTest(process: Process, roboSpec: RoboSpec, host: HostRun) returns (threw: bool)
      modifies process`trace, process`mainThread, roboSpec
      ensures process.trace == old(process.trace) + [BeforeTestStarted]
      ensures threw <==> !host.beforeTest.Completes?
      ensures roboSpec.parallelUniverseInterface == HooksAfterBeforeTest(old(roboSpec.parallelUniverseInterface), host)
      ensures roboSpec.testLifecycle == LifecycleAfterBeforeTest(old(roboSpec.testLifecycle), host)
      ensures process.mainThread == MainThreadAfterBeforeTest(old(process.mainThread), host)
    {
      process.trace := process.trace + [BeforeTestStarted];
      if host.beforeTest.FailsGettingHooks? {
        return true;
      }
      roboSpec.parallelUniverseInterface := Some(host.hooks);
      if host.beforeTest.FailsBeforeLifecycle? {
        return true;
      }
      roboSpec.testLifecycle := Some(host.lifecycle);
      process.mainThread := host.mainThreadAfterBeforeTest;
      threw := host.beforeTest.FailsAfterLifecycle?;
    }

    /** afterTest: tearDownApplication, then resetStaticState in a finally block, so the
        static state is reset even when tearDown throws; the exception is then passed on, or
        the reset's own, which replaces it. tearDown is recorded with the main thread it
        starts under; the host calls may move it. */
    method AfterTest(process: Process, roboSpec: RoboSpec, host: HostRun) returns (threw: bool)
      requires roboSpec.parallelUniverseInterface.Some?
      modifies process`trace, process`mainThread
      ensures threw == (host.tearDownThrows || host.resetThrows)
      ensures process.trace == old(process.trace) + [TearDown(old(process.mainThread)), ResetStaticState]
      ensures process.mainThread == host.mainThreadAfterAfterTest
    {
      process.trace := process.trace + [TearDown(process.mainThread)];
      process.trace := process.trace + [ResetStaticState];
      threw := host.tearDownThrows || host.resetThrows;
      process.mainThread := host.mainThreadAfterAfterTest;
    }

    /** finallyAfterTest: drops the spec's test lifecycle and hooks interface. */
    method FinallyAfterTest(process: Process, roboSpec: RoboSpec)
      modifies process`trace, roboSpec`testLifecycle, roboSpec`parallelUniverseInterface
      ensures roboSpec.testLifecycle == None && roboSpec.parallelUniverseInterface == None
      ensures process.trace == old(process.trace) + [Cleared]
    {
      roboSpec.testLifecycle := None;
      roboSpec.parallelUniverseInterface := None;
      process.trace := process.trace + [Cleared];
    }

    /** One of the suite's callbacks: recorded when called; it throws when it is the one
        `throwing` names. */
    method RunCallback(process: Process, c: Callback, throwing: Option<Callback>) returns (threw: bool)
      modifies process`trace
      ensures threw == (throwing == Some(c))
      ensures process.trace == old(process.trace) + [CallbackEvent(c)]
    {
      process.trace := process.trace + [CallbackEvent(c)];
      threw := throwing == Some(c);
    }

    /** The spec's block between its before-each and after-each callbacks, or the ignore notice
        when it has none. The leaf runs under the thread state in effect. */
    method RunBlock(process: Process, spec: Spec, throwing: Option<Callback>) returns (threw: bool)
      modifies process`trace
      ensures threw == (spec.block.Some? && (throwing == Some(RunBeforeEachCallbacks) || throwing == Some(RunAfterEachCallbacks)))
      ensures var r := BlockEvents(spec.block, Leaf(process.contextClassLoader, process.mainThread));
              process.trace == old(process.trace) + if threw then UpTo(r, CallbackEvent(throwing.value)) else r
    {
      if spec.block.Some? {
        threw := RunCallback(process, RunBeforeEachCallbacks, throwing);
        if threw {
          return;
        }
        var leaf := Leaf(process.contextClassLoader, process.mainThread);
        process.trace := process.trace + [leaf];
        threw := RunCallback(process, RunAfterEachCallbacks, throwing);
        assert [BeforeEach, leaf, AfterEach] == [BeforeEach, leaf] + [AfterEach];
        UpToAppendRight([BeforeEach, leaf], [AfterEach], AfterEach);
      } else {
        process.trace := process.trace + [Ignored];
        threw := false;
      }
    }

    /** The middle of runChild: the suite's before-callbacks when asked for, the spec's block
        between its before-each and after-each callbacks (or the ignore notice), and the
        suite's after-callbacks when asked for. The callback `throwing` names throws when it is
        called, and nothing after it runs. */
    method RunCallbacksAndBody(process: Process, spec: Spec, fireBefore: bool, fireAfter: bool,
                               throwing: Option<Callback>)
      returns (threw: bool)
      modifies process`trace
      ensures threw == CallbackThrows(fireBefore, spec.block, fireAfter, throwing)
      ensures var r := CallbackEvents(fireBefore, spec.block,
                                      Leaf(process.contextClassLoader, process.mainThread), fireAfter);
              process.trace == old(process.trace) + if threw then UpTo(r, CallbackEvent(throwing.value)) else r
    {
      ghost var leaf := Leaf(process.contextClassLoader, process.mainThread);
      ghost var first := Opt(fireBefore, BeforeCallbacks);
      ghost var body := BlockEvents(spec.block, leaf);
      ghost var last := Opt(fireAfter, AfterCallbacks);
      ghost var t0 := process.trace;
      AppendAssoc3(first, body, last);
      if fireBefore {
        threw := RunCallback(process, RunBeforeCallbacks, throwing);
        if threw {
          UpToAppendLeft([BeforeCallbacks], body + last, BeforeCallbacks);
          return;
        }
      }
      assert process.trace == t0 + first;
      threw := RunBlock(process, spec, throwing);
      if threw {
        ghost var f := CallbackEvent(throwing.value);
        assert f in body;
        UpToAppendRight(first, body + last, f);
        UpToAppendLeft(body, last, f);
        AppendAssoc3(t0, first, UpTo(body, f));
        return;
      }
      assert process.trace == t0 + first + body;
      AppendAssoc3(t0, first, body);
      if fireAfter {
        threw := RunCallback(process, RunAfterCallbacks, throwing);
        if threw {
          UpToAppendRight(first + body, [AfterCallbacks], AfterCallbacks);
          AppendAssoc3(t0, first + body, [AfterCallbacks]);
          return;
        }
      }
      AppendAssoc3(t0, first + body, last);
    }

    /** The end of runChild: afterTest, then finallyAfterTest when afterTest did not throw. */
    method AfterTestThenClear(process: Process, roboSpec: RoboSpec, host: HostRun) returns (threw: bool)
      requires roboSpec.parallelUniverseInterface.Some?
      modifies process`trace, process`mainThread, roboSpec`testLifecycle, roboSpec`parallelUniverseInterface
      ensures threw == (host.tearDownThrows || host.resetThrows)
      ensures process.trace == old(process.trace) + AfterTestEvents(host.tearDownThrows, host.resetThrows, old(process.mainThread))
      ensures process.mainThread == host.mainThreadAfterAfterTest
      ensures !threw ==> roboSpec.testLifecycle == None && roboSpec.parallelUniverseInterface == None
      ensures threw ==>
                && roboSpec.testLifecycle == old(roboSpec.testLifecycle)
                && roboSpec.parallelUniverseInterface == old(roboSpec.parallelUniverseInterface)
    {
      threw := AfterTest(process, roboSpec, host);
      if !threw {
        FinallyAfterTest(process, roboSpec);
      }
    }

    /** runChild for one spec of a suite whose specs are `suiteSpecs`. On normal completion
        the context class loader is restored and the spec's per-test objects are cleared. Any
        exception that escapes leaves the sandbox's class loader as the context class loader
        and the per-test objects as beforeTest left them; one from a callback also leaves the
        current thread as the main thread, since the restore comes after the callbacks. */
    method RunChild(process: Process, roboSpec: RoboSpec, suiteSpecs: seq<Spec>, host: HostRun)
      returns (outcome: RunOutcome)
      modifies process, roboSpec
      ensures var s := Situation(suiteSpecs, roboSpec.spec, host.beforeTest,
                                 HooksAfterBeforeTest(old(roboSpec.parallelUniverseInterface), host).Some?,
                                 host.throwingCallback, host.tearDownThrows, host.resetThrows, robolectricClassLoader,
                                 process.currentThread, MainThreadAfterBeforeTest(old(process.mainThread), host));
              && process.trace == old(process.trace) + RunChildEvents(s)
              && outcome == RunChildOutcome(s.hooksPresent, CallbackFails(s), host.tearDownThrows, host.resetThrows)
      ensures outcome == Threw(NullHooksInterface) ==> process.mainThread == old(process.mainThread)
      ensures outcome == Threw(CallbackFailed) ==> process.mainThread == process.currentThread
      ensures outcome == Completed || outcome == Threw(TearDownFailed) || outcome == Threw(StaticResetFailed) ==>
                process.mainThread == host.mainThreadAfterAfterTest
      ensures outcome == Completed ==>
                && process.contextClassLoader == old(process.contextClassLoader)
                && roboSpec.testLifecycle == None && roboSpec.parallelUniverseInterface == None
      ensures outcome.Threw? ==>
                && process.contextClassLoader == robolectricClassLoader
                && roboSpec.parallelUniverseInterface == HooksAfterBeforeTest(old(roboSpec.parallelUniverseInterface), host)
                && roboSpec.testLifecycle == LifecycleAfterBeforeTest(old(roboSpec.testLifecycle), host)
    {
      var priorContextClassLoader := process.contextClassLoader;
      process.contextClassLoader := robolectricClassLoader;

      var suiteHasNoSpecs := |suiteSpecs| == 0;
      var isFirstSpec := IndexOf(suiteSpecs, roboSpec.spec) == 0;
      var isLastSpec := IndexOf(suiteSpecs, roboSpec.spec) == |suiteSpecs| - 1;

      ghost var s := Situation(suiteSpecs, roboSpec.spec, host.beforeTest,
                               HooksAfterBeforeTest(roboSpec.parallelUniverseInterface, host).Some?,
                               host.throwingCallback, host.tearDownThrows, host.resetThrows, robolectricClassLoader,
                               process.currentThread, MainThreadAfterBeforeTest(process.mainThread, host));
      ghost var start := process.trace;
      var threw := BeforeTest(process, roboSpec, host);
      if threw {
        process.trace := process.trace + [BeforeTestFailed];
      }
      assert process.trace == start + BeforeTestEvents(host.beforeTest);

      if roboSpec.parallelUniverseInterface.None? {
        assert RunChildEvents(s) == BeforeTestEvents(host.beforeTest) + [];
        return Threw(NullHooksInterface);
      }
      var orig := process.mainThread;
      process.mainThread := process.currentThread;

      var callbackThrew := RunCallbacksAndBody(process, roboSpec.spec, suiteHasNoSpecs || isFirstSpec,
                                               suiteHasNoSpecs || isLastSpec, host.throwingCallback);
      assert callbackThrew == CallbackFails(s);
      if callbackThrew {
        AppendAssoc3(start, BeforeTestEvents(host.beforeTest),
                     UpTo(SpecEvents(s), CallbackEvent(host.throwingCallback.value)));
        return Threw(CallbackFailed);
      }
      process.mainThread := orig;
      var afterTestThrew := AfterTestThenClear(process, roboSpec, host);
      AppendAssoc4(start, BeforeTestEvents(host.beforeTest), SpecEvents(s),
                   AfterTestEvents(host.tearDownThrows, host.resetThrows, s.restoredMainThread));
      if afterTestThrew {
        return if host.resetThrows then Threw(StaticResetFailed) else Threw(TearDownFailed);
      }
      process.contextClassLoader := priorContextClassLoader;
      outcome := Completed;
    }
  }

  // ---------------------------------------------------------------- static caches

  /** getAppResourceTable over the static cache keyed by manifest: the resource merger builds
      a table only for a manifest seen for the first time. */
  method GetAppResourceTable(
    cache: GetOrCreateCache<AndroidManifest, ResourceTable>,
    appManifest: AndroidManifest,
    buildResourceTable: AndroidManifest -> ResourceTable)
    returns (table: ResourceTable)
    requires cache.Valid()
    modifies cache
    ensures cache.Valid()
    ensures appManifest in cache.entries && cache.entries[appManifest] == table
    ensures appManifest in old(cache.entries) ==>
              table == old(cache.entries)[appManifest] && cache.entries == old(cache.entries)
              && cache.created == old(cache.created)
    ensures appManifest !in old(cache.entries) ==>
              table == buildResourceTable(appManifest) && cache.entries == old(cache.entries)[appManifest := table]
              && cache.created == old(cache.created) + [appManifest]
  {
    table := cache.Get(appManifest, buildResourceTable);
  }

  /** getCompiletimeSdkResourceTable over the static field: the framework table is built on
      the first call and that same table is returned on every later call. */
  method GetCompiletimeSdkResourceTable(
    slot: LazyValue<ResourceTable>,
    newFrameworkResourceTable: () -> ResourceTable)
    returns (table: ResourceTable)
    requires slot.Valid()
    modifies slot
    ensures slot.Valid() && slot.value == Some(table) && slot.builds <= 1
    ensures old(slot.value).Some? ==> table == old(slot.value).value
    ensures old(slot.value).None? ==> table == newFrameworkResourceTable()
  {
    table := slot.Get(newFrameworkResourceTable);
  }
}
