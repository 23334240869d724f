/**
 * Registration of a TEE node: up to four steps, the first three recorded in a
 * state file so that a failed command can be given again.
 */
module Registration {
  import opened Results

  type Id = string

  const ZERO: Id := "0x0"

  /** The state file. */
  datatype Reg = Reg(completed: string, attestId: Id, instructionId: Id)

  const EMPTY: Reg := Reg("", ZERO, ZERO)

  /** What chain and proxies answer during one invocation; an error carries nothing of interest. */
  datatype Answers = Answers(
    registered: bool,
    freshAttestation: Result<Id, ()>,
    preRegistration: Result<Id, ()>,
    attestation: Result<Id, ()>,
    policyConsistent: bool,
    availability: Result<Id, ()>,
    production: Result<(), ()>)

  /** What an invocation achieved on chain, in order. */
  datatype Event =
    | Attested(step: char, id: Id)
    | Checked(attestId: Id, id: Id)
    | InProduction(instructionId: Id)

  /** The locals of RegisterNode, the file, and what has been achieved. */
  datatype Progress = Progress(
    reg: Reg, attestId: Id, instructionId: Id, file: Option<Reg>, events: seq<Event>, failed: bool)

  function Loaded(file: Option<Reg>): Progress {
    Progress(if file.Some? then file.value else EMPTY, ZERO, ZERO, file, [], false)
  }

  /** Pre-registration, or a fresh attestation for a machine already on chain. */
  function FirstAnswer(w: Answers): Result<Id, ()> {
    if w.registered then w.freshAttestation else w.preRegistration
  }

  function Attest(p: Progress, command: string, step: char, answer: Result<Id, ()>): Progress {
    if p.failed || step !in command then p
    else if step in p.reg.completed then p.(attestId := p.reg.attestId)
    else if answer.Err? then p.(failed := true)
    else
      var reg := p.reg.(completed := p.reg.completed + [step], attestId := answer.value);
      p.(reg := reg, attestId := answer.value, file := Some(reg), events := p.events + [Attested(step, answer.value)])
  }

  function Check(p: Progress, command: string, given: Id, w: Answers): Progress {
    if p.failed then p
    else if 'a' !in command then p.(instructionId := given)
    else if 'a' in p.reg.completed then p.(instructionId := p.reg.instructionId)
    else if !w.policyConsistent || w.availability.Err? then p.(failed := true)
    else
      var reg := p.reg.(completed := p.reg.completed + "a", instructionId := w.availability.value);
      p.(reg := reg, instructionId := w.availability.value, file := Some(reg),
         events := p.events + [Checked(p.attestId, w.availability.value)])
  }

  function Produce(p: Progress, command: string, w: Answers): Progress {
    if p.failed || 'p' !in command then p
    else if w.production.Err? then p.(failed := true)
    else p.(events := p.events + [InProduction(p.instructionId)])
  }

  function Attesting(file: Option<Reg>, command: string, w: Answers): Progress {
    Attest(Attest(Loaded(file), command, 'r', FirstAnswer(w)), command, 'R', w.attestation)
  }

  /** One invocation of RegisterNode. The file is removed once every step is through. */
  function Invoke(file: Option<Reg>, command: string, given: Id, w: Answers): Progress {
    var p := Produce(Check(Attesting(file, command, w), command, given, w), command, w);
    if p.failed then p else p.(file := None)
  }

  /** The same command given again and again: the file left, and all that was achieved. */
  datatype Outcome = Outcome(file: Option<Reg>, events: seq<Event>, failed: bool)

  function Resumed(command: string, given: Id, ws: seq<Answers>): Outcome {
    if ws == [] then Outcome(None, [], true)
    else
      var before := Resumed(command, given, ws[..|ws| - 1]);
      var p := Invoke(before.file, command, given, ws[|ws| - 1]);
      Outcome(p.file, before.events + p.events, p.failed)
  }

  // ----------------------------------------------------------------- resumption

  predicate Has(file: Option<Reg>, step: char) {
    file.Some? && step in file.value.completed
  }

  /** The answers a single run would have had: each step's from the invocation that got past it. */
  function Merge(file: Option<Reg>, w0: Answers, w1: Answers): Answers {
    Answers(if Has(file, 'r') then w0.registered else w1.registered,
            if Has(file, 'r') then w0.freshAttestation else w1.freshAttestation,
            if Has(file, 'r') then w0.preRegistration else w1.preRegistration,
            if Has(file, 'R') then w0.attestation else w1.attestation,
            if Has(file, 'a') then w0.policyConsistent else w1.policyConsistent,
            if Has(file, 'a') then w0.availability else w1.availability,
            w1.production)
  }

  predicate Same(one: Progress, before: seq<Event>, g: Progress) {
    one == g.(events := before + g.events)
  }

  lemma SameAttest(one: Progress, before: seq<Event>, g: Progress, command: string, step: char, answer: Result<Id, ()>)
    requires Same(one, before, g)
    ensures Same(Attest(one, command, step, answer), before, Attest(g, command, step, answer))
  {
    if answer.Ok? {
      var e := [Attested(step, answer.value)];
      assert (before + g.events) + e == before + (g.events + e);
    }
  }

  lemma SameRest(one: Progress, before: seq<Event>, g: Progress, command: string, given: Id, w: Answers)
    requires Same(one, before, g)
    ensures Same(Produce(Check(one, command, given, w), command, w), before,
                 Produce(Check(g, command, given, w), command, w))
  {
    if w.availability.Ok? {
      var e := [Checked(g.attestId, w.availability.value)];
      assert (before + g.events) + e == before + (g.events + e);
    }
    SameProduce(Check(one, command, given, w), before, Check(g, command, given, w), command, w);
  }

  lemma SameProduce(one: Progress, before: seq<Event>, g: Progress, command: string, w: Answers)
    requires Same(one, before, g)
    ensures Same(Produce(one, command, w), before, Produce(g, command, w))
  {
    var e := [InProduction(g.instructionId)];
    assert (before + g.events) + e == before + (g.events + e);
  }

  /** What a first run leaves after its attestation steps, as long as they succeed. */
  lemma AttestingLeaves(command: string, w: Answers)
    ensures var p := Attesting(None, command, w);
            && (p.file == None ==> p.reg == EMPTY && p.events == [] && p.attestId == ZERO)
            && (p.file != None ==> p.file == Some(p.reg) && p.attestId == p.reg.attestId && 'a' !in p.reg.completed)
            && (!p.failed ==> p.file.Some? == ('r' in command || 'R' in command))
            && (!p.failed && 'r' in command ==> 'r' in p.reg.completed)
            && (!p.failed && 'R' in command ==> 'R' in p.reg.completed)
            && p.instructionId == ZERO
  {
    var first := Attest(Loaded(None), command, 'r', FirstAnswer(w));
    if 'r' in command && FirstAnswer(w).Ok? {
      assert first.reg.completed == "r";
      if 'R' in command && w.attestation.Ok? {
        assert Attest(first, command, 'R', w.attestation).reg.completed == "rR";
      }
    } else if 'R' in command && w.attestation.Ok? {
      assert "" + ['R'] == "R";
    }
  }

  /** A resumed run skips what the file says is done, and carries the recorded ids. */
  lemma AttestingSkips(reg: Reg, command: string, w: Answers)
    requires 'r' in command ==> 'r' in reg.completed
    requires 'R' in command ==> 'R' in reg.completed
    requires 'r' in command || 'R' in command
    ensures Attesting(Some(reg), command, w) == Progress(reg, reg.attestId, ZERO, Some(reg), [], false)
  {
  }

  /** The first attestation step succeeded, the second did not. */
  lemma FailedAtSecond(command: string, given: Id, w0: Answers, w1: Answers)
    requires !Attest(Loaded(None), command, 'r', FirstAnswer(w0)).failed && 'r' in command
    requires Attesting(None, command, w0).failed
    ensures Resumes(command, given, w0, w1)
  {
    var f := Attesting(None, command, w0);
    var x := FirstAnswer(w0).value;
    assert "" + ['r'] == "r";
    var reg := Reg("r", x, ZERO);
    assert f.file == Some(reg) && f.events == [] + [Attested('r', x)];
    var w := Merge(f.file, w0, w1);
    var one := Attest(Loaded(None), command, 'r', FirstAnswer(w));
    var g := Attest(Loaded(f.file), command, 'r', FirstAnswer(w1));
    assert Same(one, f.events, g);
    SameAttest(one, f.events, g, command, 'R', w1.attestation);
    FinishSame(command, given, w0, w1);
  }

  /** The attestation steps succeeded, the availability check did not. */
  lemma FailedAtCheck(command: string, given: Id, w0: Answers, w1: Answers)
    requires !Attesting(None, command, w0).failed && Attesting(None, command, w0).file.Some?
    requires Check(Attesting(None, command, w0), command, given, w0).failed
    ensures Resumes(command, given, w0, w1)
  {
    var f := Attesting(None, command, w0);
    AttestingLeaves(command, w0);
    AttestingSkips(f.reg, command, w1);
    MergedAttesting(f.file, command, w0, w1);
    FinishSame(command, given, w0, w1);
  }

  /** What the merged answers and the first ones agree on. */
  lemma MergedAttesting(file: Option<Reg>, command: string, w0: Answers, w1: Answers)
    requires 'r' in command ==> Has(file, 'r')
    requires 'R' in command ==> Has(file, 'R')
    ensures Attesting(None, command, Merge(file, w0, w1)) == Attesting(None, command, w0)
  {
  }

  /** Everything succeeded but the last step. */
  lemma FailedAtProduction(command: string, given: Id, w0: Answers, w1: Answers)
    requires !Check(Attesting(None, command, w0), command, given, w0).failed
    requires Check(Attesting(None, command, w0), command, given, w0).file.Some?
    requires Invoke(None, command, given, w0).failed
    ensures Resumes(command, given, w0, w1)
  {
    var a := Attesting(None, command, w0);
    var f := Check(a, command, given, w0);
    AttestingLeaves(command, w0);
    assert 'a' in command ==> 'a' in f.reg.completed;
    assert forall c :: c in a.reg.completed ==> c in f.reg.completed;
    var w := Merge(f.file, w0, w1);
    MergedAttesting(f.file, command, w0, w1);
    var one := Check(Attesting(None, command, w), command, given, w);
    assert one == f;
    if 'r' in command || 'R' in command {
      AttestingSkips(f.reg, command, w1);
    }
    var g := Check(Attesting(f.file, command, w1), command, given, w1);
    assert one.events == f.events + g.events;
    assert Same(one.(attestId := g.attestId), f.events, g);
    SameProduce(one.(attestId := g.attestId), f.events, g, command, w1);
  }

  /** Failing and resuming once comes to the same as one run that got the merged answers. */
  ghost predicate Resumes(command: string, given: Id, w0: Answers, w1: Answers) {
    var f := Invoke(None, command, given, w0);
    var g := Invoke(f.file, command, given, w1);
    var one := Invoke(None, command, given, Merge(f.file, w0, w1));
    one.file == g.file && one.events == f.events + g.events && one.failed == g.failed
  }

  lemma FinishSame(command: string, given: Id, w0: Answers, w1: Answers)
    requires var f := Invoke(None, command, given, w0);
             && f.failed && !Has(f.file, 'a')
             && Same(Attesting(None, command, Merge(f.file, w0, w1)), f.events, Attesting(f.file, command, w1))
    ensures Resumes(command, given, w0, w1)
  {
    var f := Invoke(None, command, given, w0);
    var w := Merge(f.file, w0, w1);
    SameRest(Attesting(None, command, w), f.events, Attesting(f.file, command, w1), command, given, w1);
    RestDependsOn(Attesting(None, command, w), command, given, w, w1);
  }

  lemma RestDependsOn(p: Progress, command: string, given: Id, w: Answers, v: Answers)
    requires w.policyConsistent == v.policyConsistent
    requires w.availability == v.availability && w.production == v.production
    ensures Produce(Check(p, command, given, w), command, w) == Produce(Check(p, command, given, v), command, v)
  {
  }

  lemma ResumeOnce(command: string, given: Id, w0: Answers, w1: Answers)
    requires Invoke(None, command, given, w0).failed
    ensures Resumes(command, given, w0, w1)
  {
    var first := Attest(Loaded(None), command, 'r', FirstAnswer(w0));
    var second := Attesting(None, command, w0);
    var third := Check(second, command, given, w0);
    AttestingLeaves(command, w0);
    if third.file == None {
      NothingDone(command, given, w0, w1);
    } else if second.failed {
      FailedAtSecond(command, given, w0, w1);
    } else if third.failed {
      FailedAtCheck(command, given, w0, w1);
    } else {
      FailedAtProduction(command, given, w0, w1);
    }
  }

  lemma NothingDone(command: string, given: Id, w0: Answers, w1: Answers)
    requires Check(Attesting(None, command, w0), command, given, w0).file == None
    requires Invoke(None, command, given, w0).failed
    ensures Resumes(command, given, w0, w1)
  {
    AttestingLeaves(command, w0);
    var f := Invoke(None, command, given, w0);
    assert f.file == None && f.events == [];
    assert Merge(f.file, w0, w1) == w1;
  }

  // --------------------------------------------------------------- main results

  /** The command was given again only because it had failed. */
  predicate Retried(command: string, given: Id, ws: seq<Answers>) {
    forall n :: 0 <= n < |ws| ==> Resumed(command, given, ws[..n]).failed
  }

  /**
   * However often it fails and is resumed, a registration comes to the same as one
   * uninterrupted run: the same state file, the same outcome, and the same things
   * achieved on chain in the same order.
   */
  lemma {:induction false} ResumeIsOneRun(command: string, given: Id, ws: seq<Answers>) returns (w: Answers)
    requires ws != [] && Retried(command, given, ws)
    ensures var one := Invoke(None, command, given, w);
            Resumed(command, given, ws) == Outcome(one.file, one.events, one.failed)
  {
    var init, last := ws[..|ws| - 1], ws[|ws| - 1];
    if init == [] {
      w := last;
      assert [] + Invoke(None, command, given, w).events == Invoke(None, command, given, w).events;
    } else {
      assert forall n :: 0 <= n < |init| ==> init[..n] == ws[..n];
      var w0 := ResumeIsOneRun(command, given, init);
      assert Resumed(command, given, init).failed;
      ResumeOnce(command, given, w0, last);
      w := Merge(Invoke(None, command, given, w0).file, w0, last);
    }
  }

  function Rank(e: Event): nat {
    match e
    case Attested(step, _) => if step == 'r' then 0 else 1
    case Checked(_, _) => 2
    case InProduction(_) => 3
  }

  /** Each step once, in order. */
  predicate InOrder(events: seq<Event>) {
    forall i, j :: 0 <= i < j < |events| ==> Rank(events[i]) < Rank(events[j])
  }

  /** An achievement is commanded, and uses the id of what was achieved just before it. */
  predicate Follows(previous: Option<Event>, e: Event, command: string, given: Id) {
    match e
    case Attested(step, _) =>
      step in command && (step == 'r' || step == 'R')
    case Checked(attestId, _) =>
      if 'r' in command || 'R' in command
      then previous.Some? && previous.value.Attested? && previous.value.id == attestId
      else attestId == ZERO
    case InProduction(instructionId) =>
      if 'a' in command
      then previous.Some? && previous.value.Checked? && previous.value.id == instructionId
      else instructionId == given
  }

  function Before(events: seq<Event>, i: nat): Option<Event>
    requires i <= |events|
  {
    if i == 0 then None else Some(events[i - 1])
  }

  predicate IdsFlow(events: seq<Event>, command: string, given: Id) {
    forall i :: 0 <= i < |events| ==> Follows(Before(events, i), events[i], command, given)
  }

  lemma IdsFlowOn(events: seq<Event>, e: Event, command: string, given: Id)
    requires IdsFlow(events, command, given) && Follows(Before(events, |events|), e, command, given)
    ensures IdsFlow(events + [e], command, given)
  {
    forall i | 0 <= i < |events + [e]| ensures Follows(Before(events + [e], i), (events + [e])[i], command, given) {
      assert Before(events + [e], i) == Before(events, i);
    }
  }

  /** Which steps have been achieved. */
  predicate Achieved(events: seq<Event>, rank: nat) {
    exists i :: 0 <= i < |events| && Rank(events[i]) == rank
  }

  /** The character that asks for a step, and the commanded steps below a rank all achieved. */
  function Letter(rank: nat): char {
    if rank == 0 then 'r' else if rank == 1 then 'R' else if rank == 2 then 'a' else 'p'
  }

  predicate AllAchieved(events: seq<Event>, command: string, below: nat) {
    forall rank: nat :: rank < below && Letter(rank) in command ==> Achieved(events, rank)
  }

  /** A run with the steps below a rank behind it. */
  predicate Shaped(p: Progress, command: string, given: Id, below: nat) {
    && InOrder(p.events) && IdsFlow(p.events, command, given)
    && (forall i :: 0 <= i < |p.events| ==> Rank(p.events[i]) < below)
    && (!p.failed ==> AllAchieved(p.events, command, below))
  }

  lemma Appended(events: seq<Event>, e: Event, command: string)
    requires AllAchieved(events, command, Rank(e))
    ensures AllAchieved(events + [e], command, Rank(e) + 1)
  {
    forall rank: nat | rank < Rank(e) + 1 && Letter(rank) in command ensures Achieved(events + [e], rank) {
      if rank == Rank(e) {
        assert (events + [e])[|events|] == e;
      } else {
        var i :| 0 <= i < |events| && Rank(events[i]) == rank;
        assert (events + [e])[i] == events[i];
      }
    }
  }

  /** The attestation id carried is that of the last attestation, and no step past attestation is recorded. */
  predicate Carries(p: Progress, command: string, below: nat) {
    && (p.attestId == ZERO || p.events != [])
    && (p.events != [] ==> p.events[|p.events| - 1].Attested? && p.events[|p.events| - 1].id == p.attestId)
    && (p.events == [] ==> p.attestId == ZERO)
    && (forall rank: nat :: below <= rank < 3 ==> Letter(rank) !in p.reg.completed)
  }

  lemma AttestShape(p: Progress, command: string, given: Id, rank: nat, answer: Result<Id, ()>)
    requires rank < 2 && Shaped(p, command, given, rank) && Carries(p, command, rank)
    ensures var q := Attest(p, command, Letter(rank), answer);
            Shaped(q, command, given, rank + 1) && Carries(q, command, rank + 1)
  {
    assert Letter(0) == 'r' && Letter(1) == 'R' && Letter(2) == 'a';
    if !p.failed && Letter(rank) in command && answer.Ok? {
      Appended(p.events, Attested(Letter(rank), answer.value), command);
      IdsFlowOn(p.events, Attested(Letter(rank), answer.value), command, given);
    }
  }

  lemma AttestationsAreCommanded(events: seq<Event>, command: string, given: Id)
    requires events != [] && Rank(events[0]) < 2 && IdsFlow(events, command, given)
    ensures 'r' in command || 'R' in command
  {
    assert Follows(Before(events, 0), events[0], command, given);
  }

  /** The check may follow on what has been attested so far. */
  lemma CheckFollows(p: Progress, command: string, given: Id, id: Id)
    requires !p.failed && Shaped(p, command, given, 2) && Carries(p, command, 2)
    ensures Follows(Before(p.events, |p.events|), Checked(p.attestId, id), command, given)
  {
    assert Letter(0) == 'r' && Letter(1) == 'R';
    if 'r' in command || 'R' in command {
      assert Achieved(p.events, 0) || Achieved(p.events, 1);
    } else if p.events != [] {
      AttestationsAreCommanded(p.events, command, given);
      assert false;
    }
  }

  lemma CheckShape(p: Progress, command: string, given: Id, w: Answers)
    requires Shaped(p, command, given, 2) && Carries(p, command, 2)
    ensures var q := Check(p, command, given, w);
            && Shaped(q, command, given, 3)
            && (!q.failed && 'a' in command ==>
                  q.events != [] && q.events[|q.events| - 1].Checked? && q.events[|q.events| - 1].id == q.instructionId)
            && (!q.failed && 'a' !in command ==> q.instructionId == given)
  {
    assert Letter(0) == 'r' && Letter(1) == 'R' && Letter(2) == 'a';
    if !p.failed && 'a' in command && w.policyConsistent && w.availability.Ok? {
      Appended(p.events, Checked(p.attestId, w.availability.value), command);
      CheckFollows(p, command, given, w.availability.value);
      IdsFlowOn(p.events, Checked(p.attestId, w.availability.value), command, given);
    }
  }

  lemma ProduceShape(p: Progress, command: string, given: Id, w: Answers)
    requires Shaped(p, command, given, 3)
    requires !p.failed && 'a' in command ==>
               p.events != [] && p.events[|p.events| - 1].Checked? && p.events[|p.events| - 1].id == p.instructionId
    requires !p.failed && 'a' !in command ==> p.instructionId == given
    ensures Shaped(Produce(p, command, w), command, given, 4)
  {
    assert Letter(3) == 'p';
    if !p.failed && 'p' in command && w.production.Ok? {
      Appended(p.events, InProduction(p.instructionId), command);
      IdsFlowOn(p.events, InProduction(p.instructionId), command, given);
    }
  }

  lemma OneRunShape(command: string, given: Id, w: Answers)
    ensures var one := Invoke(None, command, given, w);
            InOrder(one.events) && IdsFlow(one.events, command, given) &&
            (!one.failed ==> AllAchieved(one.events, command, 4))
  {
    AttestShape(Loaded(None), command, given, 0, FirstAnswer(w));
    AttestShape(Attest(Loaded(None), command, 'r', FirstAnswer(w)), command, given, 1, w.attestation);
    CheckShape(Attesting(None, command, w), command, given, w);
    ProduceShape(Check(Attesting(None, command, w), command, given, w), command, given, w);
  }

  /**
   * With the same command and successful saves, any sequence of failures and
   * resumes performs each step at most once and in order; the availability check
   * always uses the id of the most recent attestation; and a run that reports
   * success leaves every commanded step achieved.
   */
  lemma ResumeKeepsOrder(command: string, given: Id, ws: seq<Answers>)
    requires ws != [] && Retried(command, given, ws)
    ensures var o := Resumed(command, given, ws);
            InOrder(o.events) && IdsFlow(o.events, command, given) && (!o.failed ==> AllAchieved(o.events, command, 4))
  {
    var w := ResumeIsOneRun(command, given, ws);
    OneRunShape(command, given, w);
  }

  // ------------------------------------------------------------- step by step

  /** A machine already on chain is asked for a fresh attestation, any other is pre-registered. */
  predicate FirstGives(w: Answers, id: Id) {
    if w.registered then w.freshAttestation == Ok(id) else w.preRegistration == Ok(id)
  }

  /** The commanded steps before a given one have all been answered. */
  predicate Reaching(command: string, w: Answers, rank: nat) {
    && (rank > 0 && 'r' in command ==> (if w.registered then w.freshAttestation.Ok? else w.preRegistration.Ok?))
    && (rank > 1 && 'R' in command ==> w.attestation.Ok?)
    && (rank > 2 && 'a' in command ==> w.policyConsistent && w.availability.Ok?)
    && (rank > 3 && 'p' in command ==> w.production.Ok?)
  }

  /** The attestation the availability check is for: the one requested, else the first step's, else none. */
  predicate Latest(command: string, w: Answers, attestId: Id) {
    && ('R' in command ==> w.attestation == Ok(attestId))
    && ('R' !in command && 'r' in command ==> FirstGives(w, attestId))
    && ('R' !in command && 'r' !in command ==> attestId == "0x0")
  }

  lemma AttestingExactly(command: string, w: Answers, id: Id)
    ensures var p := Attesting(None, command, w);
            && (Attested('r', id) in p.events <==> 'r' in command && FirstGives(w, id))
            && (Attested('R', id) in p.events <==>
                  Reaching(command, w, 1) && 'R' in command && w.attestation == Ok(id))
            && (forall e :: e in p.events ==> e.Attested?)
            && (!p.failed <==> Reaching(command, w, 2))
            && (!p.failed ==> Latest(command, w, p.attestId) && 'a' !in p.reg.completed)
  {
    AttestingLeaves(command, w);
  }

  lemma CheckExactly(p: Progress, command: string, given: Id, w: Answers, id: Id, attestId: Id)
    requires !p.failed && 'a' !in p.reg.completed && forall e :: e in p.events ==> e.Attested?
    ensures var q := Check(p, command, given, w);
            && (Checked(attestId, id) in q.events <==>
                  'a' in command && w.policyConsistent && w.availability == Ok(id) && attestId == p.attestId)
            && (forall e :: e in q.events ==> e.Attested? || e.Checked?)
            && (forall e: Event :: e.Attested? ==> (e in p.events <==> e in q.events))
            && (!q.failed <==> ('a' in command ==> w.policyConsistent && w.availability.Ok?))
            && (!q.failed ==> q.instructionId == if 'a' in command then w.availability.value else given)
  {
  }

  lemma ProduceExactly(p: Progress, command: string, w: Answers, id: Id)
    requires forall e :: e in p.events ==> e.Attested? || e.Checked?
    ensures var q := Produce(p, command, w);
            && (InProduction(id) in q.events <==>
                  !p.failed && 'p' in command && w.production.Ok? && id == p.instructionId)
            && (forall e: Event :: !e.InProduction? ==> (e in p.events <==> e in q.events))
            && (!q.failed <==> !p.failed && ('p' in command ==> w.production.Ok?))
  {
  }

  /**
   * What one run achieves, step by step: each commanded step exactly when those
   * before it were answered and its own answer is there, with that answer's id; and
   * the run reports success exactly when every commanded step was answered.
   */
  lemma RunExactly(command: string, given: Id, w: Answers, id: Id, attestId: Id)
    ensures var p := Invoke(None, command, given, w);
            && (Attested('r', id) in p.events <==> 'r' in command && FirstGives(w, id))
            && (Attested('R', id) in p.events <==>
                  Reaching(command, w, 1) && 'R' in command && w.attestation == Ok(id))
            && (Checked(attestId, id) in p.events <==>
                  && Reaching(command, w, 2) && 'a' in command && w.policyConsistent && w.availability == Ok(id)
                  && Latest(command, w, attestId))
            && (InProduction(id) in p.events <==>
                  && Reaching(command, w, 3) && 'p' in command && w.production.Ok?
                  && (if 'a' in command then w.availability == Ok(id) else id == given))
            && (!p.failed <==> Reaching(command, w, 4))
  {
    var a := Attesting(None, command, w);
    AttestingExactly(command, w, id);
    if !a.failed {
      CheckExactly(a, command, given, w, id, attestId);
    }
    ProduceExactly(Check(a, command, given, w), command, w, id);
  }

  lemma AttestingKept(command: string, w: Answers)
    ensures var p := Attesting(None, command, w);
            && (Has(p.file, 'r') <==> 'r' in command && Reaching(command, w, 1))
            && (Has(p.file, 'R') <==> 'R' in command && Reaching(command, w, 2))
            && !Has(p.file, 'a')
            && (Has(p.file, 'R') ==> w.attestation == Ok(p.file.value.attestId))
            && (Has(p.file, 'r') && !Has(p.file, 'R') ==> FirstGives(w, p.file.value.attestId))
            && (p.file.Some? ==> p.file == Some(p.reg))
  {
    AttestingLeaves(command, w);
  }

  /**
   * What one run leaves in the state file: nothing if it succeeded, and otherwise
   * the steps that got through, with the ids of the last attestation and of the check.
   */
  lemma KeptExactly(command: string, given: Id, w: Answers)
    ensures var p := Invoke(None, command, given, w);
            && (!p.failed ==> p.file == None)
            && (p.failed ==>
                  && (Has(p.file, 'r') <==> 'r' in command && Reaching(command, w, 1))
                  && (Has(p.file, 'R') <==> 'R' in command && Reaching(command, w, 2))
                  && (Has(p.file, 'a') <==> 'a' in command && Reaching(command, w, 3))
                  && (Has(p.file, 'R') ==> w.attestation == Ok(p.file.value.attestId))
                  && (Has(p.file, 'r') && !Has(p.file, 'R') ==> FirstGives(w, p.file.value.attestId))
                  && (Has(p.file, 'a') ==> w.availability == Ok(p.file.value.instructionId)))
  {
    AttestingKept(command, w);
    AttestingLeaves(command, w);
    AttestingExactly(command, w, ZERO);
  }

  // ------------------------------------------------------------------- in place

  class Registrar {
    var file: Option<Reg>
    ghost var achieved: seq<Event>

    constructor ()
      ensures file == None && achieved == []
    {
      file, achieved := None, [];
    }

    /** Pre-registration or an attestation request, skipped if the file says it is done. */
    method AttestStep(reg: Reg, attestId: Id, command: string, step: char, answer: Result<Id, ()>, ghost p: Progress)
      returns (ok: bool, reg': Reg, attestId': Id)
      requires !p.failed && file == p.file && reg == p.reg && attestId == p.attestId
      modifies this
      ensures var q := Attest(p, command, step, answer);
              && ok == !q.failed && file == q.file && reg' == q.reg && attestId' == q.attestId
              && forall base :: old(achieved) == base + p.events ==> achieved == base + q.events
    {
      ok, reg', attestId' := true, reg, attestId;
      if step in command {
        if step in reg.completed {
          attestId' := reg.attestId;
        } else if answer.Err? {
          ok := false;
        } else {
          attestId' := answer.value;
          reg' := reg.(completed := reg.completed + [step], attestId := attestId');
          file := Some(reg');
          achieved := achieved + [Attested(step, attestId')];
        }
      }
    }

    /** The availability check, with the policy looked at first. */
    method CheckStep(reg: Reg, attestId: Id, command: string, given: Id, w: Answers, ghost p: Progress)
      returns (ok: bool, instructionId: Id)
      requires !p.failed && file == p.file && reg == p.reg && attestId == p.attestId
      modifies this
      ensures var q := Check(p, command, given, w);
              && ok == !q.failed && file == q.file && (ok ==> instructionId == q.instructionId)
              && forall base :: old(achieved) == base + p.events ==> achieved == base + q.events
    {
      ok, instructionId := true, given;
      if 'a' in command {
        if 'a' in reg.completed {
          instructionId := reg.instructionId;
        } else if !w.policyConsistent || w.availability.Err? {
          ok := false;
        } else {
          instructionId := w.availability.value;
          file := Some(reg.(completed := reg.completed + "a", instructionId := instructionId));
          achieved := achieved + [Checked(attestId, instructionId)];
        }
      }
    }

    method RegisterNode(command: string, given: Id, w: Answers) returns (ok: bool)
      modifies this
      ensures var p := Invoke(old(file), command, given, w);
              file == p.file && achieved == old(achieved) + p.events && ok == !p.failed
    {
      ghost var base := achieved;
      ghost var loaded := Loaded(file);
      assert achieved == base + loaded.events;
      var reg := if file.Some? then file.value else EMPTY;
      var attestId, instructionId := ZERO, ZERO;
      var first := if w.registered then w.freshAttestation else w.preRegistration;
      ok, reg, attestId := AttestStep(reg, attestId, command, 'r', first, loaded);
      assert achieved == base + Attest(loaded, command, 'r', first).events;
      if ok {
        ghost var started := Attest(loaded, command, 'r', first);
        ok, reg, attestId := AttestStep(reg, attestId, command, 'R', w.attestation, started);
      }
      ghost var attested := Attesting(old(file), command, w);
      assert ok == !attested.failed && achieved == base + attested.events && file == attested.file;
      if ok {
        ok, instructionId := CheckStep(reg, attestId, command, given, w, attested);
      }
      ghost var passed := Check(attested, command, given, w);
      assert ok == !passed.failed && achieved == base + passed.events && file == passed.file;
      if ok && 'p' in command {
        ok := w.production.Ok?;
        if ok {
          achieved := achieved + [InProduction(instructionId)];
        }
      }
      if ok {
        file := None;
      }
    }
  }
}
