/**
 * What becomes of a job whose payment another relayer executed first. Losing the
 * race counts as success only if the error names it; a transaction that was mined
 * and reverted gives an error that does not.
 */
module LostRaces {
  import opened Results
  import opened Hex
  import opened Jobs
  import opened JobRuns

  /** Occurrence of a part somewhere in a text. */
  predicate OccursAt(text: string, part: string, i: nat) {
    i + |part| <= |text| && text[i..i + |part|] == part
  }

  lemma {:induction false} ContainsExactlyWhen(text: string, part: string)
    ensures Contains(text, part) <==> exists i: nat :: OccursAt(text, part, i)
  {
    if |part| <= |text| && text[..|part|] == part {
      assert OccursAt(text, part, 0);
    } else if text != "" {
      ContainsExactlyWhen(text[1..], part);
      if Contains(text[1..], part) {
        var i: nat :| OccursAt(text[1..], part, i);
        assert text[i + 1..i + 1 + |part|] == text[1..][i..i + |part|];
        assert OccursAt(text, part, i + 1);
      }
      if i: nat :| OccursAt(text, part, i) {
        assert i > 0;
        assert text[1..][i - 1..i - 1 + |part|] == text[i..i + |part|];
        assert OccursAt(text[1..], part, i - 1);
      }
    }
  }

  const BEFORE_HASH := "executeDirectMintingWithData reverted (tx "

  lemma NoDigitEight(i: nat)
    requires i < |BEFORE_HASH|
    ensures LowerChar(BEFORE_HASH[i]) != '8' && |BEFORE_HASH| == 42 && BEFORE_HASH[41] == ' '
  {
  }

  lemma SelectorText()
    ensures var s := PAYMENT_ALREADY_CONFIRMED_SELECTOR;
            |s| == 10 && s[3] == '8' && forall k :: 0 <= k < 10 ==> s[k] != ' ' && s[k] != ')'
  {
  }

  lemma MessageText(hash: string)
    ensures Lower(Revert(hash).message) == Lower(BEFORE_HASH) + Lower(hash) + ")"
  {
  }

  lemma Covered(text: string, part: string, i: nat, p: nat)
    requires OccursAt(text, part, i) && i <= p < i + |part|
    ensures text[p] == part[p - i]
  {
    assert text[i..i + |part|][p - i] == text[p];
  }

  lemma InsideHash(hash: string, i: nat)
    requires OccursAt(Lower(Revert(hash).message), PAYMENT_ALREADY_CONFIRMED_SELECTOR, i)
    ensures 42 <= i && i + 10 <= 42 + |hash|
  {
    var part, text := PAYMENT_ALREADY_CONFIRMED_SELECTOR, Lower(Revert(hash).message);
    MessageText(hash);
    SelectorText();
    NoDigitEight(0);
    Covered(text, part, i, i + 3);
    if i + 3 < 42 {
      NoDigitEight(i + 3);
    }
    if i <= 41 < i + 10 {
      Covered(text, part, i, 41);
    }
    if 42 <= i && i + 10 > 42 + |hash| {
      Covered(text, part, i, 42 + |hash|);
    }
  }

  lemma Shifted(hash: string, i: nat)
    requires i + 10 <= |hash|
    ensures var text := Lower(Revert(hash).message);
            i + 52 <= |text| && text[i + 42..i + 52] == Lower(hash)[i..i + 10]
  {
    MessageText(hash);
    NoDigitEight(0);
  }

  lemma OccursInside(hash: string, i: nat)
    requires OccursAt(Lower(Revert(hash).message), PAYMENT_ALREADY_CONFIRMED_SELECTOR, i)
    ensures i >= 42 && OccursAt(Lower(hash), PAYMENT_ALREADY_CONFIRMED_SELECTOR, i - 42)
  {
    SelectorText();
    InsideHash(hash, i);
    Shifted(hash, i - 42);
  }

  lemma OccursOutside(hash: string, i: nat)
    requires OccursAt(Lower(hash), PAYMENT_ALREADY_CONFIRMED_SELECTOR, i)
    ensures OccursAt(Lower(Revert(hash).message), PAYMENT_ALREADY_CONFIRMED_SELECTOR, i + 42)
  {
    SelectorText();
    Shifted(hash, i);
  }

  /** The message of a mined revert names the lost race only if the transaction's hash happens to. */
  lemma RevertNamesRace(hash: string)
    ensures IsAlreadyConfirmed(Revert(hash)) <==> Contains(Lower(hash), PAYMENT_ALREADY_CONFIRMED_SELECTOR)
  {
    var part, text, inner := PAYMENT_ALREADY_CONFIRMED_SELECTOR, Lower(Revert(hash).message), Lower(hash);
    ContainsExactlyWhen(text, part);
    ContainsExactlyWhen(inner, part);
    if i: nat :| OccursAt(text, part, i) {
      OccursInside(hash, i);
    }
    if i: nat :| OccursAt(inner, part, i) {
      OccursOutside(hash, i);
    }
  }

  /** How a step ends that throws with a proof in hand. */
  lemma ThrowEnds(j: Job, w: World)
    requires j.state == ProofFetched && Try(j, w).Throws?
    ensures var e := Try(j, w).error;
            && (Step(j, w).state == Executed <==> IsAlreadyConfirmed(e) && w.used == Ok(true))
            && (Step(j, w).state == Failed <==>
                  !(IsAlreadyConfirmed(e) && w.used == Ok(true)) && !e.retryable && j.attempts >= 4)
  {
  }

  /** The execution was sent and mined, and reverted because the payment is spent. */
  predicate RevertedAsSpent(w: World) {
    w.proof.Ok? && w.sent.Ok? && w.receipt.Ok? && w.receipt.value.reverted && w.used == Ok(true)
  }

  /**
   * Losing the race is not always a success. A job whose execution reverts on
   * chain because another relayer was first becomes failed if and only if this is
   * at least its fifth error in a row and its transaction's hash does not contain
   * the selector; the chain is not even asked whether the payment is spent.
   */
  lemma LostRaceFails(j: Job, w: World)
    requires j.state == ProofFetched && RevertedAsSpent(w)
    ensures Step(j, w).state == Failed <==>
            j.attempts >= 4 && !Contains(Lower(w.sent.value), PAYMENT_ALREADY_CONFIRMED_SELECTOR)
  {
    RevertNamesRace(w.sent.value);
    ThrowEnds(j, w);
  }

  function Proven(id: string): Job {
    FreshJob(id).(state := ProofFetched, request := Some("0x"), roundId := Some(1))
  }

  /** The chain's answer to a transaction with this hash, when another relayer was first. */
  function SpentBy(hash: string): World {
    World(0, Ok("0x"), Ok(1), Ok(true), Ok("0x"), Ok(hash), Ok(Receipt(true, [])), Ok(true), 0)
  }

  function SpentWorlds(hashes: seq<string>): seq<World> {
    seq(|hashes|, k requires 0 <= k < |hashes| => SpentBy(hashes[k]))
  }

  predicate NoSelector(hashes: seq<string>) {
    forall k :: 0 <= k < |hashes| ==> !Contains(Lower(hashes[k]), PAYMENT_ALREADY_CONFIRMED_SELECTOR)
  }

  lemma {:induction false} SpentSteps(id: string, hashes: seq<string>)
    requires |hashes| <= 5 && NoSelector(hashes)
    ensures var j := Steps(Proven(id), SpentWorlds(hashes));
            j.attempts == |hashes| && j.state == if |hashes| == 5 then Failed else ProofFetched
  {
    if hashes != [] {
      var init, last := hashes[..|hashes| - 1], hashes[|hashes| - 1];
      SpentSteps(id, init);
      assert SpentWorlds(hashes)[..|hashes| - 1] == SpentWorlds(init);
      SpentStep(Steps(Proven(id), SpentWorlds(init)), last);
    }
  }

  lemma SpentStep(j: Job, hash: string)
    requires j.state == ProofFetched && !Contains(Lower(hash), PAYMENT_ALREADY_CONFIRMED_SELECTOR)
    ensures var k := Step(j, SpentBy(hash));
            k.attempts == j.attempts + 1 && k.state == if j.attempts >= 4 then Failed else ProofFetched
  {
    RevertNamesRace(hash);
  }

  /** Five reverts in a row, with the payment spent all along: the job has failed. */
  lemma FiveRevertsFail(id: string, hashes: seq<string>)
    requires |hashes| == 5 && NoSelector(hashes)
    ensures forall k :: 0 <= k < 5 ==> RevertedAsSpent(SpentWorlds(hashes)[k])
    ensures Steps(Proven(id), SpentWorlds(hashes)).state == Failed
  {
    SpentSteps(id, hashes);
  }
}
