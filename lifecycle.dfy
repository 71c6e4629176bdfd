/**
 * The lifecycle of `PluginManager`: its `State` enum and the guards of `setLoadOnStartup`,
 * `start` and the three `goto*` phases.
 */
module Lifecycle {
  import opened Wrappers

  /** `State`, in declaration order. */
  datatype State = DoNotStart | NotStarted | Started | PreInit | Init | PostInit

  /** `State.ordinal()`. */
  function Ordinal(s: State): (n: nat)
    ensures n <= 5
  {
    match s
    case DoNotStart => 0
    case NotStarted => 1
    case Started => 2
    case PreInit => 3
    case Init => 4
    case PostInit => 5
  }

  /** The operations that consult and change the state. */
  datatype Op = SetLoad(onStartup: bool) | Boot | EnterPreInit | EnterInit | EnterPostInit

  /** The state each phase operation requires, and the state it then assigns. */
  function Requires(op: Op): State
    requires !op.SetLoad?
  {
    match op
    case Boot => NotStarted
    case EnterPreInit => Started
    case EnterInit => PreInit
    case EnterPostInit => Init
  }

  function Assigns(op: Op): State
    requires !op.SetLoad?
  {
    match op
    case Boot => Started
    case EnterPreInit => PreInit
    case EnterInit => Init
    case EnterPostInit => PostInit
  }

  /**
   * The guard of each operation: `setLoadOnStartup` throws once the ordinal is past
   * `NOT_STARTED`; the others return at once in `DO_NOT_START`, throw unless the state is the
   * one they expect, and otherwise assign the next state.
   */
  function Apply(s: State, op: Op): (r: (Outcome, State))
    // a thrown `IllegalStateException` leaves the state as it was
    ensures r.0.Fail? ==> r.0 == Fail(IllegalState) && r.1 == s
    ensures op.SetLoad? ==> (r.0 == Pass <==> Ordinal(s) <= Ordinal(NotStarted))
    ensures op.SetLoad? && r.0 == Pass ==> r.1 == (if op.onStartup then NotStarted else DoNotStart)
    ensures !op.SetLoad? && s == DoNotStart ==> r == (Pass, DoNotStart)
    ensures !op.SetLoad? && s != DoNotStart ==>
              (r.0 == Pass <==> s == Requires(op)) && (r.0 == Pass ==> r.1 == Assigns(op))
  {
    match op
    case SetLoad(b) =>
      if Ordinal(s) > Ordinal(NotStarted) then (Fail(IllegalState), s)
      else (Pass, if b then NotStarted else DoNotStart)
    case _ =>
      if s == DoNotStart then (Pass, s)
      else if s != Requires(op) then (Fail(IllegalState), s)
      else (Pass, Assigns(op))
  }

  /** A run of operations from `s`: the outcomes in order and the final state. */
  function Run(s: State, ops: seq<Op>): (r: (seq<Outcome>, State))
    ensures |r.0| == |ops|
    decreases |ops|
  {
    if ops == [] then ([], s)
    else
      var front := Run(s, ops[..|ops| - 1]);
      var last := Apply(front.1, ops[|ops| - 1]);
      (front.0 + [last.0], last.1)
  }

  /** A run extended by one operation applies it to the state the run ended in. */
  lemma RunSnoc(s: State, ops: seq<Op>, op: Op)
    ensures Run(s, ops + [op]) == (Run(s, ops).0 + [Apply(Run(s, ops).1, op).0], Apply(Run(s, ops).1, op).1)
  {
    assert (ops + [op])[..|ops|] == ops;
  }

  /** The startup sequence from `NOT_STARTED` succeeds at every step and ends in `POST_INIT`. */
  lemma StartupSequence()
    ensures Run(NotStarted, [Boot, EnterPreInit, EnterInit, EnterPostInit]) ==
            ([Pass, Pass, Pass, Pass], PostInit)
  {
    var s0: seq<Op> := [];
    var s1, s2, s3 := s0 + [Boot], s0 + [Boot] + [EnterPreInit], s0 + [Boot] + [EnterPreInit] + [EnterInit];
    RunSnoc(NotStarted, s0, Boot);
    assert Apply(NotStarted, Boot) == (Pass, Started);
    assert Run(NotStarted, s1) == ([] + [Pass], Started);
    RunSnoc(NotStarted, s1, EnterPreInit);
    assert Apply(Started, EnterPreInit) == (Pass, PreInit);
    assert Run(NotStarted, s2) == ([] + [Pass] + [Pass], PreInit);
    RunSnoc(NotStarted, s2, EnterInit);
    assert Apply(PreInit, EnterInit) == (Pass, Init);
    assert Run(NotStarted, s3) == ([] + [Pass] + [Pass] + [Pass], Init);
    RunSnoc(NotStarted, s3, EnterPostInit);
    assert Apply(Init, EnterPostInit) == (Pass, PostInit);
    assert s3 + [EnterPostInit] == [Boot, EnterPreInit, EnterInit, EnterPostInit];
    assert [] + [Pass] + [Pass] + [Pass] + [Pass] == [Pass, Pass, Pass, Pass];
  }

  /** No phase operation ever lowers the ordinal, whatever it returns. */
  lemma PhaseNeverGoesBack(s: State, op: Op)
    requires !op.SetLoad?
    ensures Ordinal(Apply(s, op).1) >= Ordinal(s)
  {
  }

  /** Each phase succeeds at most once: repeating it right away throws. */
  lemma PhaseNotTwice(s: State, op: Op)
    requires !op.SetLoad? && s != DoNotStart && Apply(s, op).0 == Pass
    ensures Apply(Apply(s, op).1, op) == (Fail(IllegalState), Apply(s, op).1)
  {
  }

  /** With `loadOnStartup` false, every run of phase operations passes without effect. */
  lemma {:induction false} DoNotStartIsInert(ops: seq<Op>)
    requires forall k :: 0 <= k < |ops| ==> !ops[k].SetLoad?
    ensures Run(DoNotStart, ops).1 == DoNotStart
    ensures forall k :: 0 <= k < |ops| ==> Run(DoNotStart, ops).0[k] == Pass
    decreases |ops|
  {
    if ops != [] {
      DoNotStartIsInert(ops[..|ops| - 1]);
    }
  }

  /**
   * Once the state is past `NOT_STARTED` it never comes back, so every later
   * `setLoadOnStartup` throws.
   */
  lemma {:induction false} PastNotStartedStays(s: State, ops: seq<Op>)
    requires Ordinal(s) > Ordinal(NotStarted)
    ensures Ordinal(Run(s, ops).1) > Ordinal(NotStarted)
    ensures forall k :: 0 <= k < |ops| && ops[k].SetLoad? ==> Run(s, ops).0[k] == Fail(IllegalState)
    decreases |ops|
  {
    if ops != [] {
      PastNotStartedStays(s, ops[..|ops| - 1]);
      var front := Run(s, ops[..|ops| - 1]);
      assert Run(s, ops).0 == front.0 + [Apply(front.1, ops[|ops| - 1]).0];
    }
  }
}
