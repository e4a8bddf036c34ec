/** internal/handlers/elasticsearch/elasticsearch.go: one Gather call, which asks all
    servers at once, twice, and collects errors on buffered channels that it closes when
    it returns. Any schedule of the goroutines is a sequence of events. */
module FanOuts {
  import opened Collections

  datatype ServerInfo = ServerInfo(nodeID: string, masterID: string)

  /** The call's settings, and what the servers will answer: which goroutines of each
      phase meet an error, and what the others learn. */
  datatype Config = Config(
    servers: seq<string>,
    clusterStats: bool, indicesInclude: bool, indicesLevel: bool,
    fails1: set<nat>, fails2: set<nat>,
    infos: nat -> ServerInfo)

  datatype Cause = Clean | FirstError(i: nat) | SecondError(i: nat)

  /** Where the calling goroutine stands. */
  datatype Main = Launch1 | Select1 | Wait1 | Launch2 | Select2 | Wait2 | Returned(cause: Cause)

  datatype Status = NotStarted | Running | Finished

  /** One phase: its goroutines, and the errors buffered on its channel by who sent them. */
  datatype Phase = Phase(goroutines: seq<Status>, buffer: seq<nat>, closed: bool)

  /** `panicked`: some goroutine sent on a closed channel. `consults` records each use of isMaster. */
  datatype State = State(main: Main, one: Phase, two: Phase, serverInfo: map<string, ServerInfo>, panicked: bool, consults: seq<Consult>)

  datatype Consult = Consult(i: nat, master: bool)

  datatype Event =
    | Launch
    | Select
    | WaitDone
    | Fail1(i: nat)
    | Learn1(i: nat)
    | AskMaster(i: nat)
    | Fail2(i: nat)
    | Finish2(i: nat)

  predicate FirstPhase(c: Config) { c.clusterStats || c.indicesInclude || c.indicesLevel }

  /** The zero serverInfo, which a lookup of an absent server gives, is a master too. */
  predicate IsMaster(info: ServerInfo) { info.nodeID == info.masterID }

  function Lookup(serverInfo: map<string, ServerInfo>, s: string): ServerInfo {
    if s in serverInfo then serverInfo[s] else ServerInfo("", "")
  }

  function Idle(n: nat): Phase { Phase(Repeat(NotStarted, n), [], false) }

  function Init(c: Config): State {
    var n := |c.servers|;
    State(Launch1, Idle(n), Idle(n), map[], false, [])
  }

  predicate RunningIn(p: Phase, i: nat) { i < |p.goroutines| && p.goroutines[i] == Running }

  predicate AllFinished(p: Phase) { forall i :: 0 <= i < |p.goroutines| ==> p.goroutines[i] == Finished }

  /** A send proceeds while the buffer has room, and panics on a closed channel. */
  predicate CanSend(p: Phase) { p.closed || |p.buffer| < |p.goroutines| }

  predicate Enabled(c: Config, s: State, e: Event) {
    match e
    case Launch => s.main == Launch1 || s.main == Launch2
    case Select => s.main == Select1 || s.main == Select2
    case WaitDone => (s.main == Wait1 && AllFinished(s.one)) || (s.main == Wait2 && AllFinished(s.two))
    case Fail1(i) => RunningIn(s.one, i) && i in c.fails1 && CanSend(s.one)
    case Learn1(i) => RunningIn(s.one, i) && i !in c.fails1 && i < |c.servers|
    case AskMaster(i) => RunningIn(s.two, i) && (c.clusterStats || c.indicesInclude) && i < |c.servers|
    case Fail2(i) => RunningIn(s.two, i) && i in c.fails2 && CanSend(s.two)
    case Finish2(i) => RunningIn(s.two, i) && i !in c.fails2
  }

  function Started(p: Phase): Phase { p.(goroutines := Repeat(Running, |p.goroutines|)) }

  function Done(p: Phase, i: nat): Phase
    requires i < |p.goroutines|
  {
    p.(goroutines := p.goroutines[i := Finished])
  }

  function Sent(p: Phase, i: nat): Phase
    requires i < |p.goroutines|
  {
    if p.closed then Done(p, i) else Done(p, i).(buffer := p.buffer + [i])
  }

  /** Returning runs the deferred closes of the channels made so far. */
  function Return(c: Config, s: State, cause: Cause): State {
    s.(main := Returned(cause),
       one := s.one.(closed := FirstPhase(c)),
       two := s.two.(closed := !cause.FirstError?))
  }

  function SelectOn(c: Config, s: State): State
    requires s.main == Select1 || s.main == Select2
  {
    if s.main == Select1 then
      if s.one.buffer == [] then s.(main := Wait1)
      else Return(c, s.(one := s.one.(buffer := s.one.buffer[1..])), FirstError(s.one.buffer[0]))
    else
      if s.two.buffer == [] then s.(main := Wait2)
      else Return(c, s.(two := s.two.(buffer := s.two.buffer[1..])), SecondError(s.two.buffer[0]))
  }

  function LaunchNext(c: Config, s: State): State
    requires s.main == Launch1 || s.main == Launch2
  {
    if s.main == Launch1 then
      if FirstPhase(c) then s.(main := Select1, one := Started(s.one), serverInfo := map[]) else s.(main := Launch2)
    else s.(main := Select2, two := Started(s.two))
  }

  function Apply(c: Config, s: State, e: Event): State
    requires Enabled(c, s, e)
  {
    match e
    case Launch => LaunchNext(c, s)
    case Select => SelectOn(c, s)
    case WaitDone => if s.main == Wait1 then s.(main := Launch2) else Return(c, s, Clean)
    case Fail1(i) => s.(one := Sent(s.one, i), panicked := s.panicked || s.one.closed)
    case Learn1(i) => s.(one := Done(s.one, i), serverInfo := s.serverInfo[c.servers[i] := c.infos(i)])
    case AskMaster(i) => s.(consults := s.consults + [Consult(i, IsMaster(Lookup(s.serverInfo, c.servers[i])))])
    case Fail2(i) => s.(two := Sent(s.two, i), panicked := s.panicked || s.two.closed)
    case Finish2(i) => s.(two := Done(s.two, i))
  }

  predicate Runs(c: Config, s: State, es: seq<Event>)
    decreases |es|
  {
    es == [] || (Enabled(c, s, es[0]) && Runs(c, Apply(c, s, es[0]), es[1..]))
  }

  function After(c: Config, s: State, es: seq<Event>): State
    requires Runs(c, s, es)
    decreases |es|
  {
    if es == [] then s else After(c, Apply(c, s, es[0]), es[1..])
  }

  // ---- the invariant ------------------------------------------------------------

  function RunningCount(gs: seq<Status>): nat {
    if gs == [] then 0 else (if gs[0] == Running then 1 else 0) + RunningCount(gs[1..])
  }

  lemma {:induction false} RunningUpdate(gs: seq<Status>, i: nat)
    requires i < |gs| && gs[i] == Running
    ensures RunningCount(gs[i := Finished]) + 1 == RunningCount(gs)
  {
    if i == 0 {
      assert gs[i := Finished][1..] == gs[1..];
    } else {
      RunningUpdate(gs[1..], i - 1);
      assert gs[i := Finished][1..] == gs[1..][i - 1 := Finished];
    }
  }

  lemma {:induction false} CountBounds(gs: seq<Status>)
    ensures RunningCount(gs) <= |gs|
    ensures (forall i :: 0 <= i < |gs| ==> gs[i] != Running) ==> RunningCount(gs) == 0
    ensures (exists i :: 0 <= i < |gs| && gs[i] == Running) ==> RunningCount(gs) > 0
  {
    if gs != [] {
      CountBounds(gs[1..]);
      if i :| 0 <= i < |gs| && gs[i] == Running {
        assert i > 0 ==> gs[1..][i - 1] == Running;
      }
    }
  }

  /** Buffered errors are from finished goroutines that failed, and there is room for the rest. */
  predicate PhaseInv(n: nat, fails: set<nat>, p: Phase) {
    && |p.goroutines| == n
    && |p.buffer| + RunningCount(p.goroutines) <= n
    && (forall k :: 0 <= k < |p.buffer| ==> p.buffer[k] < n && p.buffer[k] in fails && p.goroutines[p.buffer[k]] == Finished)
  }

  predicate Untouched(p: Phase) {
    (forall i :: 0 <= i < |p.goroutines| ==> p.goroutines[i] == NotStarted) && p.buffer == []
  }

  /** Two goroutines of one phase that will run meet an error. */
  ghost predicate TwoFail(c: Config) {
    || (FirstPhase(c) && exists i: nat, j: nat :: i < |c.servers| && j < |c.servers| && i != j && i in c.fails1 && j in c.fails1)
    || exists i: nat, j: nat :: i < |c.servers| && j < |c.servers| && i != j && i in c.fails2 && j in c.fails2
  }

  predicate Failed(c: Config, fails: set<nat>, p: Phase, i: nat) {
    i < |c.servers| && i in fails && |p.goroutines| == |c.servers| && p.goroutines[i] == Finished
  }

  /** The first phase is over: all of it ran, or none. */
  predicate FirstDone(c: Config, s: State) {
    if FirstPhase(c) then AllFinished(s.one) else Untouched(s.one)
  }

  /** What the position of the calling goroutine says about the two phases. */
  predicate MainInv(c: Config, s: State) {
    match s.main
    case Launch1 => Untouched(s.one) && Untouched(s.two) && !s.one.closed && !s.two.closed
    case Select1 => Untouched(s.two) && !s.one.closed && !s.two.closed && FirstPhase(c)
    case Wait1 => Untouched(s.two) && !s.one.closed && !s.two.closed && FirstPhase(c)
    case Launch2 => FirstDone(c, s) && Untouched(s.two) && !s.one.closed && !s.two.closed
    case Select2 => FirstDone(c, s) && !s.one.closed && !s.two.closed
    case Wait2 => FirstDone(c, s) && !s.one.closed && !s.two.closed
    case Returned(Clean) => FirstDone(c, s) && AllFinished(s.two)
    case Returned(FirstError(i)) => Failed(c, c.fails1, s.one, i) && Untouched(s.two) && FirstPhase(c)
    case Returned(SecondError(i)) => FirstDone(c, s) && Failed(c, c.fails2, s.two, i)
  }

  predicate Learned(c: Config, p: Phase, i: nat) {
    i < |c.servers| && |p.goroutines| == |c.servers| && p.goroutines[i] == Finished && i !in c.fails1
  }

  /** The server table holds what successful goroutines learned, and nothing else. */
  ghost predicate InfoInv(c: Config, s: State) {
    && |s.one.goroutines| == |c.servers|
    && (forall name :: name in s.serverInfo ==> exists i: nat :: Learned(c, s.one, i) && c.servers[i] == name && s.serverInfo[name] == c.infos(i))
    && (forall i: nat :: Learned(c, s.one, i) ==> c.servers[i] in s.serverInfo)
  }

  ghost predicate Inv(c: Config, s: State) {
    && PhaseInv(|c.servers|, c.fails1, s.one)
    && PhaseInv(|c.servers|, c.fails2, s.two)
    && MainInv(c, s)
    && InfoInv(c, s)
    && (s.panicked ==> TwoFail(c) && s.main.Returned? && !s.main.cause.Clean?)
  }

  lemma InitInv(c: Config)
    ensures Inv(c, Init(c))
  {
    RepeatAt(NotStarted, |c.servers|);
    CountBounds(Repeat(NotStarted, |c.servers|));
  }

  lemma LaunchInv(c: Config, s: State)
    requires Inv(c, s) && (s.main == Launch1 || s.main == Launch2)
    ensures Inv(c, LaunchNext(c, s))
  {
    RepeatAt(Running, |c.servers|);
    CountBounds(Repeat(Running, |c.servers|));
  }

  lemma SelectInv(c: Config, s: State)
    requires Inv(c, s) && (s.main == Select1 || s.main == Select2)
    ensures Inv(c, SelectOn(c, s))
  {
  }

  lemma DoneInv(n: nat, fails: set<nat>, p: Phase, i: nat)
    requires PhaseInv(n, fails, p) && RunningIn(p, i)
    ensures PhaseInv(n, fails, Done(p, i)) && |p.buffer| < n
    ensures i in fails ==> PhaseInv(n, fails, Sent(p, i))
  {
    RunningUpdate(p.goroutines, i);
  }

  /** A goroutine that fails leaves the table as it is. */
  lemma InfoKept(c: Config, s: State, s': State)
    requires InfoInv(c, s) && s'.serverInfo == s.serverInfo && |s'.one.goroutines| == |c.servers|
    requires forall i: nat :: Learned(c, s.one, i) <==> Learned(c, s'.one, i)
    ensures InfoInv(c, s')
  {
  }

  lemma Fail1Inv(c: Config, s: State, i: nat)
    requires Inv(c, s) && Enabled(c, s, Fail1(i))
    ensures Inv(c, Apply(c, s, Fail1(i)))
  {
    var s' := Apply(c, s, Fail1(i));
    DoneInv(|c.servers|, c.fails1, s.one, i);
    InfoKept(c, s, s');
    if s.one.closed {
      assert s.main.cause.FirstError?;
      assert s.main.cause.i != i;
    }
  }

  lemma Fail2Inv(c: Config, s: State, i: nat)
    requires Inv(c, s) && Enabled(c, s, Fail2(i))
    ensures Inv(c, Apply(c, s, Fail2(i)))
  {
    DoneInv(|c.servers|, c.fails2, s.two, i);
    if s.two.closed {
      assert s.main.cause.SecondError?;
      assert s.main.cause.i != i;
    }
  }

  lemma LearnInv(c: Config, s: State, i: nat)
    requires Inv(c, s) && Enabled(c, s, Learn1(i))
    ensures Inv(c, Apply(c, s, Learn1(i)))
  {
    var s' := Apply(c, s, Learn1(i));
    DoneInv(|c.servers|, c.fails1, s.one, i);
    assert Learned(c, s'.one, i);
    forall name | name in s'.serverInfo
      ensures exists j: nat :: Learned(c, s'.one, j) && c.servers[j] == name && s'.serverInfo[name] == c.infos(j)
    {
      if name != c.servers[i] {
        var j: nat :| Learned(c, s.one, j) && c.servers[j] == name && s.serverInfo[name] == c.infos(j);
        assert Learned(c, s'.one, j);
      }
    }
  }

  lemma StepInv(c: Config, s: State, e: Event)
    requires Inv(c, s) && Enabled(c, s, e)
    ensures Inv(c, Apply(c, s, e))
  {
    match e
    case Launch => LaunchInv(c, s);
    case Select => SelectInv(c, s);
    case WaitDone =>
    case Fail1(i) => Fail1Inv(c, s, i);
    case Learn1(i) => LearnInv(c, s, i);
    case AskMaster(i) =>
    case Fail2(i) => Fail2Inv(c, s, i);
    case Finish2(i) => DoneInv(|c.servers|, c.fails2, s.two, i);
  }

  lemma {:induction false} RunInv(c: Config, s: State, es: seq<Event>)
    requires Inv(c, s) && Runs(c, s, es)
    ensures Inv(c, After(c, s, es))
    decreases |es|
  {
    if es != [] {
      StepInv(c, s, es[0]);
      RunInv(c, Apply(c, s, es[0]), es[1..]);
    }
  }

  lemma AllInv(c: Config, es: seq<Event>)
    requires Runs(c, Init(c), es)
    ensures Inv(c, After(c, Init(c), es))
  {
    InitInv(c);
    RunInv(c, Init(c), es);
  }

  // ---- what every schedule satisfies --------------------------------------------

  /** No goroutine ever blocks on its error channel: each sends at most one error, and
      the channel has room for one from each. */
  lemma SendsNeverBlock(c: Config, es: seq<Event>, i: nat)
    requires Runs(c, Init(c), es)
    ensures var s := After(c, Init(c), es);
            && (RunningIn(s.one, i) && i in c.fails1 ==> Enabled(c, s, Fail1(i)) && |s.one.buffer| < |c.servers|)
            && (RunningIn(s.two, i) && i in c.fails2 ==> Enabled(c, s, Fail2(i)) && |s.two.buffer| < |c.servers|)
  {
    AllInv(c, es);
    var s := After(c, Init(c), es);
    if RunningIn(s.one, i) {
      DoneInv(|c.servers|, c.fails1, s.one, i);
    }
    if RunningIn(s.two, i) {
      DoneInv(|c.servers|, c.fails2, s.two, i);
    }
  }

  /** When both selects took their default branch, every goroutine has finished, and so
      has sent what it sends, before the channels are closed. */
  lemma CleanReturn(c: Config, es: seq<Event>)
    requires Runs(c, Init(c), es) && After(c, Init(c), es).main == Returned(Clean)
    ensures var s := After(c, Init(c), es);
            && AllFinished(s.two) && (FirstPhase(c) ==> AllFinished(s.one)) && !s.panicked
  {
    AllInv(c, es);
  }

  /** A returned error is one that a goroutine of that phase met. */
  lemma ReturnedError(c: Config, es: seq<Event>)
    requires Runs(c, Init(c), es)
    ensures var main := After(c, Init(c), es).main;
            && (main.Returned? && main.cause.FirstError? ==> FirstPhase(c) && main.cause.i in c.fails1)
            && (main.Returned? && main.cause.SecondError? ==> main.cause.i in c.fails2)
  {
    AllInv(c, es);
  }

  /** Goroutine `j` learns about the server that goroutine `i` asks. */
  predicate Tells(c: Config, i: nat, j: nat)
    requires i < |c.servers|
  {
    j < |c.servers| && c.servers[j] == c.servers[i] && j !in c.fails1
  }

  /** isMaster is consulted only once this call's first phase ran and completed. The
      answer is whether node and master are the same in what some goroutine learned about
      the server; a server about which none learned anything counts as the master. */
  lemma MasterConsulted(c: Config, es: seq<Event>, i: nat)
    requires Runs(c, Init(c), es) && Enabled(c, After(c, Init(c), es), AskMaster(i))
    ensures var s := After(c, Init(c), es);
            var asked, n := Apply(c, s, AskMaster(i)).consults, |s.consults|;
            && FirstPhase(c) && AllFinished(s.one)
            && |asked| == n + 1 && asked[..n] == s.consults && asked[n].i == i
            && if forall j: nat :: j < |c.servers| && c.servers[j] == c.servers[i] ==> j in c.fails1 then asked[n].master
               else exists j: nat :: Tells(c, i, j) && asked[n].master == (c.infos(j).nodeID == c.infos(j).masterID)
  {
    AllInv(c, es);
    var s := After(c, Init(c), es);
    assert s.one.goroutines != [];
    if j: nat :| j < |c.servers| && c.servers[j] == c.servers[i] && j !in c.fails1 {
      assert Learned(c, s.one, j);
    }
  }

  // ---- when a send can meet a closed channel ------------------------------------

  lemma {:induction false} RunsConcat(c: Config, s: State, es: seq<Event>, more: seq<Event>)
    requires Runs(c, s, es) && Runs(c, After(c, s, es), more)
    ensures Runs(c, s, es + more) && After(c, s, es + more) == After(c, After(c, s, es), more)
    decreases |es|
  {
    if es == [] {
      assert es + more == more;
    } else {
      assert (es + more)[1..] == es[1..] + more;
      RunsConcat(c, Apply(c, s, es[0]), es[1..], more);
    }
  }

  lemma RunsThen(c: Config, s: State, es: seq<Event>, e: Event)
    requires Runs(c, s, es) && Enabled(c, After(c, s, es), e)
    ensures Runs(c, s, es + [e]) && After(c, s, es + [e]) == Apply(c, After(c, s, es), e)
  {
    var s1 := After(c, s, es);
    assert [e][1..] == [];
    assert Runs(c, Apply(c, s1, e), [e][1..]);
    assert Runs(c, s1, [e]) && After(c, s1, [e]) == Apply(c, s1, e);
    RunsConcat(c, s, es, [e]);
  }

  /** The first phase can run to its end while the caller waits. */
  lemma {:induction false} FinishFirst(c: Config, s: State) returns (es: seq<Event>)
    requires Inv(c, s) && s.main == Wait1
    requires forall i :: 0 <= i < |s.one.goroutines| ==> s.one.goroutines[i] != NotStarted
    ensures Runs(c, s, es)
    ensures var s' := After(c, s, es);
            Inv(c, s') && s'.main == Wait1 && AllFinished(s'.one) && s'.two == s.two
    decreases RunningCount(s.one.goroutines)
  {
    es := [];
    if i: nat :| RunningIn(s.one, i) {
      var e := if i in c.fails1 then Fail1(i) else Learn1(i);
      DoneInv(|c.servers|, c.fails1, s.one, i);
      RunningUpdate(s.one.goroutines, i);
      RunsThen(c, s, [], e);
      StepInv(c, s, e);
      var more := FinishFirst(c, Apply(c, s, e));
      assert [] + [e] == [e];
      RunsConcat(c, s, [e], more);
      es := [e] + more;
    } else {
      forall i | 0 <= i < |s.one.goroutines|
        ensures s.one.goroutines[i] == Finished
      {
        assert !RunningIn(s.one, i) && !s.one.goroutines[i].NotStarted?;
      }
    }
  }

  /** Two failures in the first phase: one is received, the other is sent too late. */
  lemma FirstPhasePanic(c: Config, i: nat, j: nat) returns (es: seq<Event>)
    requires FirstPhase(c) && i < |c.servers| && j < |c.servers| && i != j && i in c.fails1 && j in c.fails1
    ensures Runs(c, Init(c), es) && After(c, Init(c), es).panicked
  {
    RepeatAt(Running, |c.servers|);
    es := [];
    RunsThen(c, Init(c), es, Launch); es := es + [Launch];
    RunsThen(c, Init(c), es, Fail1(i)); es := es + [Fail1(i)];
    RunsThen(c, Init(c), es, Select); es := es + [Select];
    RunsThen(c, Init(c), es, Fail1(j)); es := es + [Fail1(j)];
  }

  /** The second phase can always be reached: the caller selects before any error is sent. */
  lemma ReachSecond(c: Config) returns (es: seq<Event>)
    ensures Runs(c, Init(c), es)
    ensures var s := After(c, Init(c), es); Inv(c, s) && s.main == Launch2
  {
    RepeatAt(Running, |c.servers|);
    es := [];
    RunsThen(c, Init(c), es, Launch); es := es + [Launch];
    if FirstPhase(c) {
      RunsThen(c, Init(c), es, Select); es := es + [Select];
      AllInv(c, es);
      var more := FinishFirst(c, After(c, Init(c), es));
      RunsConcat(c, Init(c), es, more); es := es + more;
      RunsThen(c, Init(c), es, WaitDone); es := es + [WaitDone];
    }
    AllInv(c, es);
  }

  lemma SecondPhasePanic(c: Config, i: nat, j: nat) returns (es: seq<Event>)
    requires i < |c.servers| && j < |c.servers| && i != j && i in c.fails2 && j in c.fails2
    ensures Runs(c, Init(c), es) && After(c, Init(c), es).panicked
  {
    RepeatAt(Running, |c.servers|);
    es := ReachSecond(c);
    RunsThen(c, Init(c), es, Launch); es := es + [Launch];
    RunsThen(c, Init(c), es, Fail2(i)); es := es + [Fail2(i)];
    RunsThen(c, Init(c), es, Select); es := es + [Select];
    RunsThen(c, Init(c), es, Fail2(j)); es := es + [Fail2(j)];
  }

  /** Some schedule sends on a closed channel iff two goroutines of one phase meet an
      error; and it then happened after an early return. */
  lemma PanicIffTwoFail(c: Config)
    ensures TwoFail(c) <==> exists es :: Runs(c, Init(c), es) && After(c, Init(c), es).panicked
  {
    if es :| Runs(c, Init(c), es) && After(c, Init(c), es).panicked {
      AllInv(c, es);
    }
    if FirstPhase(c) {
      if i: nat, j: nat :| i < |c.servers| && j < |c.servers| && i != j && i in c.fails1 && j in c.fails1 {
        var es := FirstPhasePanic(c, i, j);
      }
    }
    if i: nat, j: nat :| i < |c.servers| && j < |c.servers| && i != j && i in c.fails2 && j in c.fails2 {
      var es := SecondPhasePanic(c, i, j);
    }
  }

  lemma PanicAfterEarlyReturn(c: Config, es: seq<Event>)
    requires Runs(c, Init(c), es) && After(c, Init(c), es).panicked
    ensures var main := After(c, Init(c), es).main; main.Returned? && !main.cause.Clean?
  {
    AllInv(c, es);
  }

  // ---- which outcomes a call can have ---------------------------------------------

  /** Until an error of its phase is received, every error met is still buffered. */
  ghost predicate Buffered(n: nat, fails: set<nat>, p: Phase) {
    forall i: nat :: i < n && i in fails && |p.goroutines| == n && p.goroutines[i] == Finished ==> i in p.buffer
  }

  ghost predicate Unread(c: Config, s: State) {
    && (!(s.main.Returned? && s.main.cause.FirstError?) ==> Buffered(|c.servers|, c.fails1, s.one))
    && (!(s.main.Returned? && s.main.cause.SecondError?) ==> Buffered(|c.servers|, c.fails2, s.two))
  }

  lemma SentBuffered(n: nat, fails: set<nat>, p: Phase, i: nat)
    requires Buffered(n, fails, p) && RunningIn(p, i) && |p.goroutines| == n && !p.closed
    ensures Buffered(n, fails, Sent(p, i))
  {
    var p' := Sent(p, i);
    forall j: nat | j < n && j in fails && p'.goroutines[j] == Finished
      ensures j in p'.buffer
    {
      assert j in p.buffer + [i];
    }
  }

  lemma StepUnread(c: Config, s: State, e: Event)
    requires Inv(c, s) && Unread(c, s) && Enabled(c, s, e)
    ensures Unread(c, Apply(c, s, e))
  {
    match e
    case Launch =>
      RepeatAt(Running, |c.servers|);
    case Fail1(i) =>
      if !(s.main.Returned? && s.main.cause.FirstError?) {
        SentBuffered(|c.servers|, c.fails1, s.one, i);
      }
    case Fail2(i) =>
      if !(s.main.Returned? && s.main.cause.SecondError?) {
        SentBuffered(|c.servers|, c.fails2, s.two, i);
      }
    case _ =>
  }

  lemma {:induction false} RunUnread(c: Config, s: State, es: seq<Event>)
    requires Inv(c, s) && Unread(c, s) && Runs(c, s, es)
    ensures Unread(c, After(c, s, es))
    decreases |es|
  {
    if es != [] {
      StepInv(c, s, es[0]);
      StepUnread(c, s, es[0]);
      RunUnread(c, Apply(c, s, es[0]), es[1..]);
    }
  }

  /** A call that returns without an error has lost every error that was met; one that
      returns an error of the second phase has lost all of the first. */
  lemma LostErrors(c: Config, es: seq<Event>)
    requires Runs(c, Init(c), es) && After(c, Init(c), es).main.Returned?
    ensures var s := After(c, Init(c), es);
            && (!s.main.cause.FirstError? && FirstPhase(c) ==> forall i: nat :: i < |c.servers| && i in c.fails1 ==> i in s.one.buffer)
            && (s.main.cause.Clean? ==> forall i: nat :: i < |c.servers| && i in c.fails2 ==> i in s.two.buffer)
  {
    AllInv(c, es);
    InitInv(c);
    RepeatAt(NotStarted, |c.servers|);
    RunUnread(c, Init(c), es);
  }

  /** The second phase can run to its end, too. */
  lemma {:induction false} FinishSecond(c: Config, s: State) returns (es: seq<Event>)
    requires Inv(c, s) && s.main == Wait2
    requires forall i :: 0 <= i < |s.two.goroutines| ==> s.two.goroutines[i] != NotStarted
    ensures Runs(c, s, es)
    ensures var s' := After(c, s, es); s'.main == Wait2 && AllFinished(s'.two)
    decreases RunningCount(s.two.goroutines)
  {
    es := [];
    if i: nat :| RunningIn(s.two, i) {
      var e := if i in c.fails2 then Fail2(i) else Finish2(i);
      DoneInv(|c.servers|, c.fails2, s.two, i);
      RunningUpdate(s.two.goroutines, i);
      RunsThen(c, s, [], e);
      StepInv(c, s, e);
      var more := FinishSecond(c, Apply(c, s, e));
      assert [] + [e] == [e];
      RunsConcat(c, s, [e], more);
      es := [e] + more;
    } else {
      forall i | 0 <= i < |s.two.goroutines|
        ensures s.two.goroutines[i] == Finished
      {
        assert !RunningIn(s.two, i) && !s.two.goroutines[i].NotStarted?;
      }
    }
  }

  lemma ReturnClean(c: Config) returns (es: seq<Event>)
    ensures Runs(c, Init(c), es) && After(c, Init(c), es).main == Returned(Clean)
  {
    RepeatAt(Running, |c.servers|);
    es := ReachSecond(c);
    RunsThen(c, Init(c), es, Launch); es := es + [Launch];
    RunsThen(c, Init(c), es, Select); es := es + [Select];
    AllInv(c, es);
    var more := FinishSecond(c, After(c, Init(c), es));
    RunsConcat(c, Init(c), es, more); es := es + more;
    RunsThen(c, Init(c), es, WaitDone); es := es + [WaitDone];
  }

  lemma ReturnFirst(c: Config, i: nat) returns (es: seq<Event>)
    requires FirstPhase(c) && i < |c.servers| && i in c.fails1
    ensures Runs(c, Init(c), es) && After(c, Init(c), es).main == Returned(FirstError(i))
  {
    RepeatAt(Running, |c.servers|);
    es := [];
    RunsThen(c, Init(c), es, Launch); es := es + [Launch];
    RunsThen(c, Init(c), es, Fail1(i)); es := es + [Fail1(i)];
    RunsThen(c, Init(c), es, Select); es := es + [Select];
  }

  lemma ReturnSecond(c: Config, i: nat) returns (es: seq<Event>)
    requires i < |c.servers| && i in c.fails2
    ensures Runs(c, Init(c), es) && After(c, Init(c), es).main == Returned(SecondError(i))
  {
    RepeatAt(Running, |c.servers|);
    es := ReachSecond(c);
    RunsThen(c, Init(c), es, Launch); es := es + [Launch];
    RunsThen(c, Init(c), es, Fail2(i)); es := es + [Fail2(i)];
    RunsThen(c, Init(c), es, Select); es := es + [Select];
  }

  /** A call can return without an error whatever fails, and with the error of any goroutine
      that runs and meets one; nothing else. */
  lemma OutcomeIff(c: Config, cause: Cause)
    ensures (exists es :: Runs(c, Init(c), es) && After(c, Init(c), es).main == Returned(cause)) <==>
            match cause
            case Clean => true
            case FirstError(i) => FirstPhase(c) && i < |c.servers| && i in c.fails1
            case SecondError(i) => i < |c.servers| && i in c.fails2
  {
    if es :| Runs(c, Init(c), es) && After(c, Init(c), es).main == Returned(cause) {
      AllInv(c, es);
    }
    match cause
    case Clean =>
      var es := ReturnClean(c);
    case FirstError(i) =>
      if FirstPhase(c) && i < |c.servers| && i in c.fails1 {
        var es := ReturnFirst(c, i);
      }
    case SecondError(i) =>
      if i < |c.servers| && i in c.fails2 {
        var es := ReturnSecond(c, i);
      }
  }
}
