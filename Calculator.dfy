/**
 * The calculator: the cursor stepped by the tilt zone (update_cursor) and
 * the state machine the select button drives (select_click_handler) over
 * the operator display, the number display, the stored value, the pending
 * operator and the entry mode.
 */
module Calculator {
  import opened Options
  import opened Keys
  import opened Codec

  /** CALC_MODE_NEWOP, CALC_MODE_MIDOP and CALC_MODE_INPUT. */
  datatype Mode = NewOp | MidOp | Input

  /** The calculator state the keys act on; a missing operator is the source's tmpop 0. */
  datatype State = State(mode: Mode, tmpval: real, tmpop: Option<ArithOp>, opText: string, numText: string)

  /** After the memset of rc_create_calculator and the initial "0" of the number display. */
  const Initial: State := State(NewOp, 0.0, None, "", "0")

  predicate IsOpText(t: string) { t == "" || t == "+" || t == "-" || t == "*" || t == "/" }

  /** What the displays can hold: a well-formed number that fits its buffer, and an operator label. */
  predicate Displayable(st: State)
  {
    WellFormed(st.numText) && |st.numText| < BufferSize && IsOpText(st.opText)
  }

  /** The reset a digit or '.' does first: a new operation from NEWOP, a new number from MIDOP. */
  function Fresh(st: State): State
  {
    match st.mode
    case NewOp => State(Input, 0.0, None, "", "0")
    case MidOp => st.(numText := "0", mode := Input)
    case Input => st
  }

  /**
   * Which rules for digits and for the result display a press follows: the
   * source's, or the corrected ones (a display "0.0" kept when a digit is
   * typed, and only trailing zeros cut off a result).
   */
  datatype Rules = AsWritten | Corrected

  /**
   * Whether a digit replaces the number display. As written, the display
   * reads 0 and does not end in '.'; as intended, it reads 0 and holds no
   * '.', so that digits typed after "0.0" are kept.
   */
  predicate Replaces(r: Rules, num: string)
  {
    match r
    case AsWritten => |num| >= 1 && Value(num) == 0.0 && num[|num| - 1] != '.'
    case Corrected => Value(num) == 0.0 && '.' !in num
  }

  /** The digit-entry rule on the number display alone. */
  function EnterDigit(r: Rules, num: string, d: DigitValue): string
  {
    if Replaces(r, num) then Label(Digit(d)) else num + Label(Digit(d))
  }

  /** The text '=' writes for its result: rc_update_number_buffer as written, or corrected. */
  function Shown(r: Rules, v: real): string
    requires Formattable(v)
  {
    match r
    case AsWritten => FormatTextAsWritten(v)
    case Corrected => FormatText(v)
  }

  /** The operands of '=' and of the function keys: (stored, display), swapped in NEWOP. */
  function Operands(st: State): (real, real)
  {
    var v := Value(st.numText);
    if st.mode == NewOp then (v, st.tmpval) else (st.tmpval, v)
  }

  /** The arithmetic of '='; a zero divisor gives 0. */
  function Compute(op: ArithOp, a: real, b: real): real
  {
    match op
    case Add => a + b
    case Sub => a - b
    case Mul => a * b
    case Div => if b == 0.0 then 0.0 else a / b
  }

  /** The result '=' would show. */
  function Result(st: State): real
    requires st.tmpop.Some?
  {
    Compute(st.tmpop.value, Operands(st).0, Operands(st).1)
  }

  /**
   * What a key needs so that the source stays inside its 16-character
   * buffers: room for one more character when it appends, and a result
   * whose text fits and whose integer part is an int.
   */
  predicate Fits(r: Rules, st: State, k: Key)
  {
    match k
    case Digit(_) => !Replaces(r, Fresh(st).numText) ==> |Fresh(st).numText| < BufferSize - 1
    case Dot => '.' !in Fresh(st).numText ==> |Fresh(st).numText| < BufferSize - 1
    case Equals => st.tmpop.Some? ==> Formattable(Result(st)) && |Shown(r, Result(st))| < BufferSize
    case _ => true
  }

  /** The effect of pressing key k under the rules r. */
  function Press(r: Rules, st: State, k: Key): State
    requires Fits(r, st, k)
  {
    match k
    case Digit(d) =>
      var s := Fresh(st);
      s.(numText := EnterDigit(r, s.numText, d))
    case Op(o) =>
      st.(opText := Label(k), tmpval := Value(st.numText), tmpop := Some(o), mode := MidOp)
    case Equals =>
      if st.tmpop.None? then st
      else st.(tmpval := Operands(st).1, numText := Shown(r, Result(st)), mode := NewOp)
    case Clear =>
      st.(opText := "", numText := "0", tmpval := 0.0)
    case Back =>
      if |st.numText| > 1 then st.(numText := st.numText[..|st.numText| - 1]) else st.(numText := "0")
    case Dot =>
      var s := Fresh(st);
      if '.' in s.numText then s else s.(numText := s.numText + ".", mode := Input)
  }

  // ---------------------------------------------------------------------------
  // Properties of the state machine

  lemma DigitLabel(d: DigitValue)
    ensures Label(Digit(d)) == [DigitChar(d)] && WellFormed(Label(Digit(d)))
  {
  }

  /** Every key keeps the displays displayable, under either rules. */
  lemma PressKeepsDisplayable(r: Rules, st: State, k: Key)
    requires Displayable(st) && Fits(r, st, k)
    ensures Displayable(Press(r, st, k))
  {
    var s := Fresh(st);
    assert WellFormed(s.numText) && |s.numText| < BufferSize;
    match k
    case Digit(d) =>
      DigitLabel(d);
      if !Replaces(r, s.numText) {
        AppendDigitWellFormed(s.numText, DigitChar(d));
      }
    case Op(o) =>
    case Equals =>
      if st.tmpop.Some? {
        FormatWellFormed(Result(st));
      }
    case Clear =>
    case Back =>
      if |st.numText| > 1 {
        DropLastWellFormed(st.numText);
      }
    case Dot =>
      if '.' !in s.numText {
        AppendDotWellFormed(s.numText);
      }
  }

  /**
   * A run of key presses from st: the state after the last, or None when a
   * key would overrun a display buffer.
   */
  function Run(r: Rules, st: State, keys: seq<Key>): Option<State>
    decreases |keys|
  {
    if keys == [] then Some(st)
    else if !Fits(r, st, keys[0]) then None
    else Run(r, Press(r, st, keys[0]), keys[1..])
  }

  /** Every state a run reaches is displayable. */
  lemma {:induction false} RunKeepsDisplayable(r: Rules, st: State, keys: seq<Key>)
    requires Displayable(st)
    ensures Run(r, st, keys).Some? ==> Displayable(Run(r, st, keys).value)
    decreases |keys|
  {
    if keys != [] && Fits(r, st, keys[0]) {
      PressKeepsDisplayable(r, st, keys[0]);
      RunKeepsDisplayable(r, Press(r, st, keys[0]), keys[1..]);
    }
  }

  /** A digit string without a '-' or '.' reads as the integer it spells. */
  lemma WholeValue(s: string)
    requires AllDigits(s)
    ensures Value(s) == IntegerValue(s) as real
  {
    assert forall i :: 0 <= i < |s| ==> s[i] != '.' && s[i] != '-';
    assert s[..|s|] == s;
  }

  lemma RunCons(r: Rules, st: State, k: Key, keys: seq<Key>)
    requires Fits(r, st, k)
    ensures Run(r, st, [k] + keys) == Run(r, Press(r, st, k), keys)
  {
    assert ([k] + keys)[1..] == keys;
  }

  /** A run over a + b is the run over a continued by a run over b; it stops where a's run stops. */
  lemma {:induction false} RunConcat(r: Rules, st: State, a: seq<Key>, b: seq<Key>)
    ensures Run(r, st, a).None? ==> Run(r, st, a + b).None?
    ensures Run(r, st, a).Some? ==> Run(r, st, a + b) == Run(r, Run(r, st, a).value, b)
    decreases |a|
  {
    if a == [] {
      assert a + b == b;
    } else {
      assert (a + b)[0] == a[0];
      if Fits(r, st, a[0]) {
        assert (a + b)[1..] == a[1..] + b;
        RunConcat(r, Press(r, st, a[0]), a[1..], b);
      }
    }
  }

  /** A whole result in int range is shown as its "%d" text by either formatter. */
  lemma ShownWhole(r: Rules, n: int)
    requires InInt32(n)
    ensures Formattable(n as real) && Shown(r, n as real) == DecimalString(n)
  {
    assert TruncReal(n as real) == n;
  }

  // ---------------------------------------------------------------------------
  // Worked runs; they go the same way under both rules

  /** The keys of the worked addition 12 + 3 =, typed in two parts. */
  const TwelveKeys: seq<Key> := [Digit(1), Digit(2)]
  const PlusThreeKeys: seq<Key> := [Op(Add), Digit(3), Equals]
  const SumKeys: seq<Key> := TwelveKeys + PlusThreeKeys

  /** 1, 2, +, 3, = shows 15, keeping the 3 as the stored operand. */
  lemma AddShowsSum(r: Rules)
    ensures Run(r, Initial, SumKeys) == Some(State(NewOp, 3.0, Some(Add), "+", "15"))
  {
    TypeTwelve(r);
    AddThree(r);
    RunConcat(r, Initial, TwelveKeys, PlusThreeKeys);
  }

  lemma TypeTwelve(r: Rules)
    ensures Run(r, Initial, TwelveKeys) == Some(State(Input, 0.0, None, "", "12"))
  {
    var s1 := State(Input, 0.0, None, "", "1");
    DigitStartsNumber(r, Initial, 1);
    RunCons(r, Initial, Digit(1), [Digit(2)]);
    EnterSecondDigit(r);
    RunCons(r, s1, Digit(2), []);
  }

  lemma AddThree(r: Rules)
    ensures Run(r, State(Input, 0.0, None, "", "12"), PlusThreeKeys)
            == Some(State(NewOp, 3.0, Some(Add), "+", "15"))
  {
    var s2 := State(Input, 0.0, None, "", "12");
    var s3 := State(MidOp, 12.0, Some(Add), "+", "12");
    var s4 := State(Input, 12.0, Some(Add), "+", "3");
    PressPlus(r);
    RunCons(r, s2, Op(Add), [Digit(3), Equals]);
    DigitStartsNumber(r, s3, 3);
    RunCons(r, s3, Digit(3), [Equals]);
    AddEquals(r);
    RunCons(r, s4, Equals, []);
  }

  /** A second = adds the stored 3 to the 15 shown and shows 18. */
  lemma RepeatEqualsAddsAgain(r: Rules)
    ensures Run(r, Initial, SumKeys + [Equals]) == Some(State(NewOp, 3.0, Some(Add), "+", "18"))
  {
    AddShowsSum(r);
    RepeatEqualsRun(r);
    RunConcat(r, Initial, SumKeys, [Equals]);
  }

  /** A digit typed when a new number starts replaces the "0" the reset leaves. */
  lemma DigitStartsNumber(r: Rules, st: State, d: DigitValue)
    requires st.mode != Input
    ensures Fits(r, st, Digit(d))
    ensures Press(r, st, Digit(d)) == Fresh(st).(numText := Label(Digit(d)))
  {
    WholeValue("0");
    assert Replaces(r, "0");
  }

  /** In INPUT, a digit typed after a display that does not read 0 is appended, under either rules. */
  lemma AppendsDigit(r: Rules, st: State, d: DigitValue)
    requires st.mode == Input && Value(st.numText) != 0.0
    requires |st.numText| < BufferSize - 1
    ensures Fits(r, st, Digit(d))
    ensures Press(r, st, Digit(d)) == st.(numText := st.numText + Label(Digit(d)))
  {
    assert !Replaces(r, st.numText);
  }

  lemma EnterSecondDigit(r: Rules)
    ensures Fits(r, State(Input, 0.0, None, "", "1"), Digit(2))
    ensures Press(r, State(Input, 0.0, None, "", "1"), Digit(2)) == State(Input, 0.0, None, "", "12")
  {
    WholeValue("1");
    assert !Replaces(r, "1");
  }

  lemma PressPlus(r: Rules)
    ensures Press(r, State(Input, 0.0, None, "", "12"), Op(Add)) == State(MidOp, 12.0, Some(Add), "+", "12")
  {
    WholeValue("12");
    assert "12"[..1] == "1";
  }

  lemma AddEquals(r: Rules)
    ensures Fits(r, State(Input, 12.0, Some(Add), "+", "3"), Equals)
    ensures Press(r, State(Input, 12.0, Some(Add), "+", "3"), Equals) == State(NewOp, 3.0, Some(Add), "+", "15")
  {
    WholeValue("3");
    ShownWhole(r, 15);
  }

  lemma RepeatEquals(r: Rules)
    ensures Fits(r, State(NewOp, 3.0, Some(Add), "+", "15"), Equals)
    ensures Press(r, State(NewOp, 3.0, Some(Add), "+", "15"), Equals) == State(NewOp, 3.0, Some(Add), "+", "18")
  {
    var st := State(NewOp, 3.0, Some(Add), "+", "15");
    WholeValue("15");
    assert "15"[..1] == "1";
    assert Operands(st) == (15.0, 3.0);
    ShownWhole(r, 18);
    assert Result(st) == 18 as real;
  }

  lemma RepeatEqualsRun(r: Rules)
    ensures Run(r, State(NewOp, 3.0, Some(Add), "+", "15"), [Equals]) == Some(State(NewOp, 3.0, Some(Add), "+", "18"))
  {
    RepeatEquals(r);
    RunCons(r, State(NewOp, 3.0, Some(Add), "+", "15"), Equals, []);
  }

  /** 5, /, 0, = shows 0: a zero divisor gives 0, and the divisor is kept as the stored operand. */
  lemma DivideByZeroShowsZero(r: Rules)
    ensures Run(r, Initial, [Digit(5), Op(Div), Digit(0), Equals])
            == Some(State(NewOp, 0.0, Some(Div), "/", "0"))
  {
    var s1 := State(Input, 0.0, None, "", "5");
    var s2 := State(MidOp, 5.0, Some(Div), "/", "5");
    var s3 := State(Input, 5.0, Some(Div), "/", "0");
    DigitStartsNumber(r, Initial, 5);
    RunCons(r, Initial, Digit(5), [Op(Div), Digit(0), Equals]);
    WholeValue("5");
    assert Press(r, s1, Op(Div)) == s2;
    RunCons(r, s1, Op(Div), [Digit(0), Equals]);
    DigitStartsNumber(r, s2, 0);
    RunCons(r, s2, Digit(0), [Equals]);
    ZeroDivisor(r, s3);
    RunCons(r, s3, Equals, []);
  }

  /** '=' on a pending division whose divisor reads 0 shows "0" rather than failing. */
  lemma ZeroDivisor(r: Rules, st: State)
    requires st.tmpop == Some(Div) && Operands(st).1 == 0.0
    ensures Fits(r, st, Equals)
    ensures Press(r, st, Equals) == st.(tmpval := 0.0, numText := "0", mode := NewOp)
  {
    assert Result(st) == 0.0;
    ShownWhole(r, 0);
  }

  /** With no operator pending, '=' changes nothing. */
  lemma EqualsWithoutOperator(r: Rules, st: State)
    requires st.tmpop.None?
    ensures Fits(r, st, Equals) && Press(r, st, Equals) == st
  {
  }

  /** C clears both displays and the stored value, but keeps the pending operator and the mode. */
  lemma ClearKeepsOperatorAndMode(r: Rules, st: State)
    ensures Press(r, st, Clear).tmpop == st.tmpop && Press(r, st, Clear).mode == st.mode
    ensures Press(r, st, Clear).numText == "0" && Press(r, st, Clear).opText == "" && Press(r, st, Clear).tmpval == 0.0
  {
  }

  /** Backspace drops the last character, and a single character gives "0": "12" shows "1", "5" shows "0". */
  lemma BackspaceExamples(r: Rules)
    ensures Press(r, State(Input, 0.0, None, "", "12"), Back).numText == "1"
    ensures Press(r, State(Input, 0.0, None, "", "5"), Back).numText == "0"
  {
    assert "12"[..1] == "1";
  }

  // ---------------------------------------------------------------------------
  // Digits typed after "0.0"

  /**
   * The source replaces the display "0.0" by the digit typed next, so
   * typing 0.05 shows 5; the intended rule keeps the digits.
   */
  lemma ZeroFractionReplacedAsWritten()
    ensures EnterDigit(AsWritten, "0.0", 5) == "5"
    ensures EnterDigit(Corrected, "0.0", 5) == "0.05"
  {
    ZeroPointZero();
  }

  lemma ZeroPointZero()
    ensures Value("0.0") == 0.0 && '.' in "0.0"
  {
    assert "0.0"[1] == '.';
    assert LastDot("0.0") == Some(1);
    assert "0.0"[..1] == "0" && "0.0"[2..] == "0";
  }

  /** Under the intended rule a digit typed after a '.' is always appended. */
  lemma DigitAfterPointAppended(num: string, d: DigitValue)
    requires '.' in num
    ensures EnterDigit(Corrected, num, d) == num + Label(Digit(d))
  {
  }

  /** The two rules differ only on displays that read 0 and hold a '.' before their last character. */
  lemma EnterDigitAgrees(num: string, d: DigitValue)
    requires |num| >= 1
    ensures EnterDigit(Corrected, num, d) != EnterDigit(AsWritten, num, d)
            <==> Value(num) == 0.0 && '.' in num && num[|num| - 1] != '.'
  {
    assert |num + Label(Digit(d))| > |Label(Digit(d))|;
  }

  /** The keys 0 . 0 5, and the states they pass through up to the last key. */
  const ZeroPointZeroFiveKeys: seq<Key> := [Digit(0), Dot, Digit(0), Digit(5)]

  lemma TypeZeroPointZero(r: Rules)
    ensures Run(r, Initial, ZeroPointZeroFiveKeys)
            == Run(r, State(Input, 0.0, None, "", "0.0"), [Digit(5)])
  {
    var s1 := State(Input, 0.0, None, "", "0");
    var s2 := State(Input, 0.0, None, "", "0.");
    DigitStartsNumber(r, Initial, 0);
    RunCons(r, Initial, Digit(0), [Dot, Digit(0), Digit(5)]);
    PointAfterZero(r);
    RunCons(r, s1, Dot, [Digit(0), Digit(5)]);
    ZeroAfterPoint(r);
    RunCons(r, s2, Digit(0), [Digit(5)]);
  }

  lemma PointAfterZero(r: Rules)
    ensures Fits(r, State(Input, 0.0, None, "", "0"), Dot)
    ensures Press(r, State(Input, 0.0, None, "", "0"), Dot) == State(Input, 0.0, None, "", "0.")
  {
    assert '.' !in "0" by { assert "0"[0] != '.'; }
  }

  lemma ZeroAfterPoint(r: Rules)
    ensures Fits(r, State(Input, 0.0, None, "", "0."), Digit(0))
    ensures Press(r, State(Input, 0.0, None, "", "0."), Digit(0)) == State(Input, 0.0, None, "", "0.0")
  {
    assert "0."[1] == '.';
  }

  /** As written, typing 0 . 0 5 on a new calculator shows 5. */
  lemma TypeZeroPointZeroFiveAsWritten()
    ensures Run(AsWritten, Initial, ZeroPointZeroFiveKeys)
            == Some(State(Input, 0.0, None, "", "5"))
  {
    var s3 := State(Input, 0.0, None, "", "0.0");
    TypeZeroPointZero(AsWritten);
    ZeroPointZero();
    assert Press(AsWritten, s3, Digit(5)) == s3.(numText := "5");
    RunCons(AsWritten, s3, Digit(5), []);
  }

  /** Under the corrected rule, typing 0 . 0 5 on a new calculator shows 0.05. */
  lemma TypeZeroPointZeroFive()
    ensures Run(Corrected, Initial, ZeroPointZeroFiveKeys)
            == Some(State(Input, 0.0, None, "", "0.05"))
  {
    var s3 := State(Input, 0.0, None, "", "0.0");
    TypeZeroPointZero(Corrected);
    ZeroPointZero();
    assert Press(Corrected, s3, Digit(5)) == s3.(numText := "0.05");
    RunCons(Corrected, s3, Digit(5), []);
  }

  // ---------------------------------------------------------------------------
  // A result with a '0' inside its fraction

  /** The keys 2 1 / 2 0 0 =, typed in three parts. */
  const TwentyOneKeys: seq<Key> := [Digit(2), Digit(1), Op(Div)]
  const TwoHundredKeys: seq<Key> := [Digit(2), Digit(0), Digit(0)]
  const DivideKeys: seq<Key> := TwentyOneKeys + TwoHundredKeys + [Equals]

  lemma TypeTwentyOneOver(r: Rules)
    ensures Run(r, Initial, TwentyOneKeys) == Some(State(MidOp, 21.0, Some(Div), "/", "21"))
  {
    var s1 := State(Input, 0.0, None, "", "2");
    var s2 := State(Input, 0.0, None, "", "21");
    assert TwentyOneKeys == [Digit(2)] + [Digit(1), Op(Div)];
    DigitStartsNumber(r, Initial, 2);
    RunCons(r, Initial, Digit(2), [Digit(1), Op(Div)]);
    WholeValue("2");
    AppendsDigit(r, s1, 1);
    assert "2" + Label(Digit(1)) == "21";
    RunCons(r, s1, Digit(1), [Op(Div)]);
    PressDivide(r);
    RunCons(r, s2, Op(Div), []);
  }

  lemma PressDivide(r: Rules)
    ensures Press(r, State(Input, 0.0, None, "", "21"), Op(Div)) == State(MidOp, 21.0, Some(Div), "/", "21")
  {
    WholeValue("21");
    assert "21"[..1] == "2";
  }

  lemma TypeTwoHundred(r: Rules)
    ensures Run(r, State(MidOp, 21.0, Some(Div), "/", "21"), TwoHundredKeys)
            == Some(State(Input, 21.0, Some(Div), "/", "200"))
  {
    var s3 := State(MidOp, 21.0, Some(Div), "/", "21");
    var s4 := State(Input, 21.0, Some(Div), "/", "2");
    var s5 := State(Input, 21.0, Some(Div), "/", "20");
    assert TwoHundredKeys == [Digit(2)] + [Digit(0), Digit(0)];
    DigitStartsNumber(r, s3, 2);
    RunCons(r, s3, Digit(2), [Digit(0), Digit(0)]);
    WholeValue("2");
    AppendsDigit(r, s4, 0);
    assert "2" + Label(Digit(0)) == "20";
    RunCons(r, s4, Digit(0), [Digit(0)]);
    TwentyValue();
    AppendsDigit(r, s5, 0);
    assert "20" + Label(Digit(0)) == "200";
    RunCons(r, s5, Digit(0), []);
  }

  lemma TwentyValue()
    ensures Value("20") == 20.0 && Value("200") == 200.0
  {
    WholeValue("20");
    WholeValue("200");
    assert "200"[..2] == "20" && "20"[..1] == "2";
  }

  /** '=' on 21 / 200 computes 0.105 and keeps the 200. */
  lemma DivideTwoHundred(r: Rules)
    ensures Result(State(Input, 21.0, Some(Div), "/", "200")) == 0.105
    ensures Fits(r, State(Input, 21.0, Some(Div), "/", "200"), Equals)
    ensures Press(r, State(Input, 21.0, Some(Div), "/", "200"), Equals)
            == State(NewOp, 200.0, Some(Div), "/", Shown(r, 0.105))
  {
    TwentyValue();
    assert TruncReal(0.105) == 0;
    AsWrittenText();
    CorrectedText();
    assert |Shown(r, 0.105)| <= 5;
  }

  lemma DivideShows(r: Rules)
    ensures Formattable(0.105)
    ensures Run(r, Initial, DivideKeys) == Some(State(NewOp, 200.0, Some(Div), "/", Shown(r, 0.105)))
  {
    TypeTwentyOneOver(r);
    TypeTwoHundredEquals(r);
    RunConcat(r, Initial, TwentyOneKeys, TwoHundredKeys + [Equals]);
    assert DivideKeys == TwentyOneKeys + (TwoHundredKeys + [Equals]);
  }

  lemma TypeTwoHundredEquals(r: Rules)
    ensures Formattable(0.105)
    ensures Run(r, State(MidOp, 21.0, Some(Div), "/", "21"), TwoHundredKeys + [Equals])
            == Some(State(NewOp, 200.0, Some(Div), "/", Shown(r, 0.105)))
  {
    var s3 := State(MidOp, 21.0, Some(Div), "/", "21");
    var s6 := State(Input, 21.0, Some(Div), "/", "200");
    TypeTwoHundred(r);
    RunConcat(r, s3, TwoHundredKeys, [Equals]);
    DivideTwoHundred(r);
    RunCons(r, s6, Equals, []);
  }

  /** As written, 2 1 / 2 0 0 = shows 0.1: the fraction ends at its first '0'. */
  lemma DivideDropsDigitsAsWritten()
    ensures Run(AsWritten, Initial, DivideKeys)
            == Some(State(NewOp, 200.0, Some(Div), "/", "0.1"))
  {
    DivideShows(AsWritten);
    AsWrittenText();
  }

  /** Under the corrected formatter, 2 1 / 2 0 0 = shows 0.105. */
  lemma DivideKeepsDigits()
    ensures Run(Corrected, Initial, DivideKeys)
            == Some(State(NewOp, 200.0, Some(Div), "/", "0.105"))
  {
    DivideShows(Corrected);
    CorrectedText();
  }

  // ---------------------------------------------------------------------------
  // The cursor (update_cursor)

  function Col(x: int): int { (x - GridX) / ButtonSize }
  function Row(y: int): int { (y - GridY) / ButtonSize }

  function Clamp(v: int, lo: int, hi: int): int
  {
    if v < lo then lo else if v > hi then hi else v
  }

  /** The column a zone moves toward: left for 1, 4, 7, right for 3, 6, 9. */
  function ColStep(tilt: int): int
  {
    if tilt == 1 || tilt == 4 || tilt == 7 then -1
    else if tilt == 3 || tilt == 6 || tilt == 9 then 1
    else 0
  }

  /** The row a zone moves toward: up above 6, down below 4. */
  function RowStep(tilt: int): int
  {
    if tilt > 6 then -1 else if tilt < 4 then 1 else 0
  }

  /** Where the cursor goes: one key toward the zone in each axis, stopping at the keypad's edges. */
  function CursorTarget(x: int, y: int, tilt: int): (int, int)
  {
    (GridX + ButtonSize * Clamp(Col(x) + ColStep(tilt), 0, Columns - 1),
     GridY + ButtonSize * Clamp(Row(y) + RowStep(tilt), 0, Rows - 1))
  }

  /** The cursor never leaves the grid. */
  lemma CursorStaysOnGrid(x: int, y: int, tilt: int)
    requires OnGrid(x, y)
    ensures OnGrid(CursorTarget(x, y, tilt).0, CursorTarget(x, y, tilt).1)
  {
    var c := Clamp(Col(x) + ColStep(tilt), 0, Columns - 1);
    var r := Clamp(Row(y) + RowStep(tilt), 0, Rows - 1);
    assert (ButtonSize * c) % ButtonSize == 0;
    assert (ButtonSize * r) % ButtonSize == 0;
  }

  /** Zone 5, the level watch, leaves the cursor where it is. */
  lemma LevelKeepsCursor(x: int, y: int)
    requires OnGrid(x, y)
    ensures CursorTarget(x, y, 5) == (x, y)
  {
  }

  /** The scan of the '.' handler: does the number display hold a '.' already? */
  method ContainsDot(num: string) returns (has: bool)
    ensures has <==> '.' in num
  {
    has := false;
    for i := 0 to |num|
      invariant has <==> '.' in num[..i]
    {
      assert num[..i + 1] == num[..i] + [num[i]];
      if num[i] == '.' {
        has := true;
      }
    }
    assert num[..|num|] == num;
  }

  /** The switch on tmpop under '='. */
  method Arithmetic(op: ArithOp, val0: real, val1: real) returns (res: real)
    ensures res == Compute(op, val0, val1)
  {
    match op {
      case Add => res := val0 + val1;
      case Sub => res := val0 - val1;
      case Mul => res := val0 * val1;
      case Div =>
        if val1 == 0.0 {
          res := 0.0;
        } else {
          res := val0 / val1;
        }
    }
  }

  /** The calculator: its keypad, the cursor, and the state the keys act on. */
  class Calc {
    const buttonset: ButtonSet
    var curX: int
    var curY: int
    var mode: Mode
    var tmpval: real
    var tmpop: Option<ArithOp>
    var opText: string
    var numText: string

    function Current(): State
      reads this
    {
      State(mode, tmpval, tmpop, opText, numText)
    }

    /** The keypad is laid out, the cursor is on it, and the displays are displayable. */
    ghost predicate Valid()
      reads this, buttonset
    {
      buttonset.Valid() && buttonset.buttons == Layout() && OnGrid(curX, curY) && Displayable(Current())
    }

    /** The calculator part of rc_create_calculator: keypad, cursor at the first key, state zeroed, display "0". */
    constructor ()
      ensures Valid() && fresh(buttonset)
      ensures Current() == Initial && curX == GridX && curY == GridY
    {
      var bs := new ButtonSet();
      bs.AddKeypad();
      buttonset := bs;
      curX := GridX;
      curY := GridY;
      mode := NewOp;
      tmpval := 0.0;
      tmpop := None;
      opText := "";
      numText := "0";
      new;
      assert Label(Digit(0)) == "0";
    }

    /** update_cursor: step one key toward the tilt zone where the keypad allows, and say whether it moved. */
    method UpdateCursor(tilt: int) returns (moved: bool)
      requires Valid()
      modifies this
      ensures Valid() && Current() == old(Current())
      ensures (curX, curY) == CursorTarget(old(curX), old(curY), tilt)
      ensures moved <==> (curX, curY) != (old(curX), old(curY))
    {
      CursorStaysOnGrid(curX, curY, tilt);
      var x := curX;
      var y := curY;
      var update := false;
      if tilt > 6 {
        if y > GridY {
          update := true;
          y := y - ButtonSize;
        }
      }
      if tilt < 4 {
        if y < GridY + ButtonSize * 2 {
          update := true;
          y := y + ButtonSize;
        }
      }
      if tilt == 1 || tilt == 4 || tilt == 7 {
        if x > GridX {
          update := true;
          x := x - ButtonSize;
        }
      }
      if tilt == 3 || tilt == 6 || tilt == 9 {
        if x < GridX + ButtonSize * 5 {
          update := true;
          x := x + ButtonSize;
        }
      }
      if update {
        curX := x;
        curY := y;
      }
      moved := update;
    }

    /** select_click_handler: press the key under the cursor. */
    method SelectClick()
      requires Valid() && Fits(AsWritten, Current(), Layout()[GridIndex(curX, curY)].key)
      modifies this
      ensures Valid() && curX == old(curX) && curY == old(curY)
      ensures Current() == Press(AsWritten, old(Current()), Layout()[GridIndex(curX, curY)].key)
    {
      var b := buttonset.Lookup(curX, curY);
      LookupOnKeypad(buttonset.buttons, curX, curY, b);
      if b.Some? {
        Apply(b.value.key);
      }
    }

    /** The body of select_click_handler for a resolved key. */
    method Apply(k: Key)
      requires Valid() && Fits(AsWritten, Current(), k)
      modifies this
      ensures Valid() && curX == old(curX) && curY == old(curY)
      ensures Current() == Press(AsWritten, old(Current()), k)
    {
      PressKeepsDisplayable(AsWritten, Current(), k);
      match k
      case Digit(d) => DigitKey(d);
      case Equals => EqualsKey();
      case Op(o) => OperatorKey(o);
      case Clear =>
        opText := "";
        numText := "0";
        tmpval := 0.0;
      case Back =>
        if |numText| > 1 {
          numText := numText[..|numText| - 1];
        } else {
          numText := "0";
        }
      case Dot => DotKey();
    }

    /** The NEWOP and MIDOP reset a digit or '.' does first. */
    method StartNumber()
      requires Valid()
      modifies this
      ensures Valid() && curX == old(curX) && curY == old(curY)
      ensures Current() == Fresh(old(Current()))
    {
      if mode == NewOp {
        tmpval := 0.0;
        tmpop := None;
        opText := "";
        numText := "0";
        mode := Input;
      } else if mode == MidOp {
        numText := "0";
        mode := Input;
      }
    }

    /** A number key: reset, then replace a display that reads 0 and does not end in '.', or append. */
    method DigitKey(d: DigitValue)
      requires Valid() && Fits(AsWritten, Current(), Digit(d))
      modifies this
      ensures Valid() && curX == old(curX) && curY == old(curY)
      ensures Current() == Press(AsWritten, old(Current()), Digit(d))
    {
      PressKeepsDisplayable(AsWritten, Current(), Digit(d));
      StartNumber();
      var v := ParseNumber(numText);
      if v == 0.0 && numText[|numText| - 1] != '.' {
        numText := Label(Digit(d));
      } else {
        numText := numText + Label(Digit(d));
      }
    }

    /** '=': with an operator pending, show the result and keep the right operand for a repeat. */
    method EqualsKey()
      requires Valid() && Fits(AsWritten, Current(), Equals)
      modifies this
      ensures Valid() && curX == old(curX) && curY == old(curY)
      ensures Current() == Press(AsWritten, old(Current()), Equals)
    {
      ghost var st := Current();
      PressKeepsDisplayable(AsWritten, st, Equals);
      var val1 := ParseNumber(numText);
      var val0 := 0.0;
      if mode == NewOp {
        val0 := val1;
        val1 := tmpval;
      } else {
        val0 := tmpval;
      }
      assert (val0, val1) == Operands(st);
      if tmpop.Some? {
        var res := Arithmetic(tmpop.value, val0, val1);
        tmpval := val1;
        numText := FormatNumberAsWritten(res);
        mode := NewOp;
        assert Current() == st.(tmpval := Operands(st).1, numText := FormatTextAsWritten(Result(st)), mode := NewOp);
      }
      assert Current() == Press(AsWritten, st, Equals);
      assert Displayable(Current());
    }

    /** + - * /: show the operator, store the display's value, and wait for the second operand. */
    method OperatorKey(o: ArithOp)
      requires Valid()
      modifies this
      ensures Valid() && curX == old(curX) && curY == old(curY)
      ensures Current() == Press(AsWritten, old(Current()), Op(o))
    {
      PressKeepsDisplayable(AsWritten, Current(), Op(o));
      opText := Label(Op(o));
      tmpval := ParseNumber(numText);
      tmpop := Some(o);
      mode := MidOp;
    }

    /** '.': reset, then append a '.' unless the display has one. */
    method DotKey()
      requires Valid() && Fits(AsWritten, Current(), Dot)
      modifies this
      ensures Valid() && curX == old(curX) && curY == old(curY)
      ensures Current() == Press(AsWritten, old(Current()), Dot)
    {
      PressKeepsDisplayable(AsWritten, Current(), Dot);
      StartNumber();
      var has := ContainsDot(numText);
      if !has {
        numText := numText + ".";
        mode := Input;
      }
    }
  }
}
