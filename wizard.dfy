/**
 * The step counter of the checkout wizard. The field starts as the NUMBER 1,
 * while every transition stores a STRING, and the guards compare with string
 * literals: a number against a string compares numerically, two strings
 * compare lexicographically. This module models those values and comparisons.
 */
module Wizard {
  import opened JsText

  /** The value of `currentStep`: the initial number 1, or the string `n.toString()`. */
  datatype Step = Num1 | Str(n: nat)

  /** `currentStep > '1'` (the number 1 is compared as 1 > 1). */
  predicate AboveFirst(s: Step)
  {
    match s
    case Num1 => 1 > 1
    case Str(n) => StringLess("1", DecimalString(n))
  }

  /** `currentStep < '3'` (the number 1 is compared as 1 < 3). */
  predicate BelowLast(s: Step)
  {
    match s
    case Num1 => 1 < 3
    case Str(n) => StringLess(DecimalString(n), "3")
  }

  /** `parseInt(currentStep)`. */
  function ParseInt(s: Step): nat
  {
    match s
    case Num1 => 1
    case Str(n) => n
  }

  /** A step that passes the `> '1'` guard is the string of a positive number. */
  lemma AboveFirstIsPositive(s: Step)
    requires AboveFirst(s)
    ensures s.Str? && ParseInt(s) >= 1
  {
  }

  /** handlePrevious. */
  function Previous(s: Step): Step
  {
    if AboveFirst(s) then AboveFirstIsPositive(s); Str(ParseInt(s) - 1) else s
  }

  /** handleNext. */
  function Next(s: Step): Step
  {
    if BelowLast(s) then Str(ParseInt(s) + 1) else s
  }

  /** The getters `isStep1`, `isStep2`, `isStep3`: strict equality with a string literal. */
  predicate IsStep(s: Step, text: string)
  {
    s.Str? && DecimalString(s.n) == text
  }

  /** The step is one of the strings '1', '2', '3'. */
  predicate InRange(s: Step)
  {
    s.Str? && 1 <= s.n <= 3
  }

  /** The guards read like integer comparisons on the steps that occur. */
  lemma GuardsOnSteps(s: Step)
    requires s == Num1 || InRange(s)
    ensures AboveFirst(s) <==> ParseInt(s) > 1
    ensures BelowLast(s) <==> ParseInt(s) < 3
  {
    if s.Str? {
      DigitOrder(1, s.n);
      DigitOrder(s.n, 3);
      assert "1" == DecimalString(1) && "3" == DecimalString(3);
    }
  }

  /**
   * handleNext advances by one below step 3 and does nothing at step 3; from
   * the initial number 1 it yields the string '2'.
   */
  lemma NextOnStep(s: Step)
    requires s == Num1 || InRange(s)
    ensures Next(s) == if ParseInt(s) < 3 then Str(ParseInt(s) + 1) else s
    ensures Next(Num1) == Str(2)
  {
    GuardsOnSteps(s);
    GuardsOnSteps(Num1);
  }

  /**
   * handlePrevious goes back by one above step 1 and does nothing at step 1,
   * the initial number 1 included.
   */
  lemma PreviousOnStep(s: Step)
    requires s == Num1 || InRange(s)
    ensures Previous(s) == if ParseInt(s) > 1 then Str(ParseInt(s) - 1) else s
    ensures Previous(Num1) == Num1
  {
    GuardsOnSteps(s);
  }

  /** Once the step is one of '1'..'3', Next and Previous keep it there. */
  lemma TransitionsStayInRange(s: Step)
    requires InRange(s)
    ensures InRange(Next(s)) && InRange(Previous(s))
  {
    NextOnStep(s);
    PreviousOnStep(s);
  }

  /**
   * Next then Previous from '1' or '2' comes back to the same string; from the
   * initial number 1 it comes back to the STRING '1'.
   */
  lemma NextThenPrevious(s: Step)
    requires s == Num1 || (InRange(s) && s.n < 3)
    ensures Previous(Next(s)) == Str(ParseInt(s))
  {
    NextOnStep(s);
    PreviousOnStep(Next(s));
  }

  /** Previous then Next from '2' or '3' restores the step. */
  lemma PreviousThenNext(s: Step)
    requires InRange(s) && s.n > 1
    ensures Next(Previous(s)) == s
  {
    PreviousOnStep(s);
    NextOnStep(Previous(s));
  }

  /**
   * `isStepK` holds exactly when the step is the string of K, so at most one
   * getter holds; on the initial number 1 none does.
   */
  lemma StepGetters(s: Step)
    ensures IsStep(s, "1") <==> s == Str(1)
    ensures IsStep(s, "2") <==> s == Str(2)
    ensures IsStep(s, "3") <==> s == Str(3)
    ensures !(IsStep(s, "1") && IsStep(s, "2")) && !(IsStep(s, "1") && IsStep(s, "3"))
    ensures !(IsStep(s, "2") && IsStep(s, "3"))
    ensures s == Num1 ==> !IsStep(s, "1") && !IsStep(s, "2") && !IsStep(s, "3")
  {
    if s.Str? {
      assert "1" == DecimalString(1) && "2" == DecimalString(2) && "3" == DecimalString(3);
      DecimalStringOfDigit(s.n, 1);
      DecimalStringOfDigit(s.n, 2);
      DecimalStringOfDigit(s.n, 3);
    }
  }

  /** A button press on the wizard. */
  datatype Move = NextMove | PreviousMove

  /** The step after a sequence of presses. */
  function Run(s: Step, moves: seq<Move>): Step
    decreases |moves|
  {
    if moves == [] then s
    else Run(if moves[0] == NextMove then Next(s) else Previous(s), moves[1..])
  }

  /** Any sequence of presses keeps a step in '1'..'3' in that range. */
  lemma {:induction false} RunStaysInRange(s: Step, moves: seq<Move>)
    requires InRange(s)
    ensures InRange(Run(s, moves))
    decreases |moves|
  {
    if moves != [] {
      TransitionsStayInRange(s);
      RunStaysInRange(if moves[0] == NextMove then Next(s) else Previous(s), moves[1..]);
    }
  }

  /**
   * From the initial number 1, any sequence of presses ends on the number 1
   * (no Next pressed yet) or on one of '1'..'3'.
   */
  lemma {:induction false} RunFromInitial(moves: seq<Move>)
    ensures Run(Num1, moves) == Num1 || InRange(Run(Num1, moves))
    decreases |moves|
  {
    if moves != [] {
      NextOnStep(Num1);
      PreviousOnStep(Num1);
      if moves[0] == NextMove {
        RunStaysInRange(Str(2), moves[1..]);
      } else {
        RunFromInitial(moves[1..]);
      }
    }
  }
}
