/**
 * The pure logic of the add/edit transaction screen: the amount keypad, the
 * amount parser the save button relies on, the save gate and the sign rule,
 * the memo preview and the clock text stored with a row.
 */
module Keypad {
  import opened Wrappers
  import opened Text
  import opened Records

  // ---------------------------------------------------------------------------
  // The keypad

  /**
   * The label on the keypad's decimal key, which the handler appends as it
   * is: a mis-decoded bullet, the three characters U+00E2 U+20AC U+00A2.
   * None of them is a full stop, and backspace removes them one at a time.
   */
  const Label: string := "\U{00E2}\U{20AC}\U{00A2}"

  /** The label's last character, which no other key enters. */
  const LabelEnd: char := '\U{00A2}'

  /** `contains` on strings: `t` occurs in `s` at some position. */
  predicate Contains(s: string, t: string) {
    exists i :: 0 <= i <= |s| - |t| && s[i..][..|t|] == t
  }

  /** Every occurrence of the label ends in its last character. */
  lemma ContainsLabelEnd(s: string)
    requires Contains(s, Label)
    ensures LabelEnd in s
  {
    var i :| 0 <= i <= |s| - |Label| && s[i..][..|Label|] == Label;
    assert s[i + 2] == s[i..][..|Label|][2];
  }

  /** A keypad button: ten digit keys, the decimal key, backspace, and "Clear". */
  datatype Key = Digit(c: char) | Decimal | Backspace | Clear

  predicate OnPad(key: Key) {
    key.Digit? ==> IsDigit(key.c)
  }

  /**
   * The keypad handler as written: backspace drops the last character,
   * "Clear" empties the amount, a digit is appended below ten characters,
   * and the decimal key appends its own label (or gives "0." on an empty
   * amount), at most once.
   */
  function NextAmount(amount: string, key: Key): string {
    match key
    case Backspace => if amount != "" then amount[..|amount| - 1] else amount
    case Clear => ""
    case Decimal =>
      if !Contains(amount, Label) && amount != "" then amount + Label
      else if amount == "" then "0."
      else amount
    case Digit(c) => if |amount| < 10 then amount + [c] else amount
  }

  /** The same handler with the decimal key entering '.', the separator the parser reads. */
  function KeypadStep(amount: string, key: Key): string {
    match key
    case Backspace => if amount != "" then amount[..|amount| - 1] else amount
    case Clear => ""
    case Decimal =>
      if '.' !in amount && amount != "" then amount + "."
      else if amount == "" then "0."
      else amount
    case Digit(c) => if |amount| < 10 then amount + [c] else amount
  }

  /**
   * What the as-written keypad can produce: the label's last character at
   * most once, and only as the end of a whole label. Backspace can leave the
   * label's first two characters behind, so there is no bound on the length.
   */
  ghost predicate BulletText(s: string) {
    && Count(s, LabelEnd) <= 1
    && (forall i :: 0 <= i < |s| && s[i] == LabelEnd ==> 2 <= i && s[i - 2..i + 1] == Label)
  }

  /** The full label occurs at most once. */
  ghost predicate LabelAtMostOnce(s: string) {
    forall i, j :: 0 <= i < j <= |s| - |Label| ==> !(s[i..][..|Label|] == Label && s[j..][..|Label|] == Label)
  }

  /** Two places holding `c` make its count at least two. */
  lemma CountTwo(s: string, c: char, i: int, j: int)
    requires 0 <= i < j < |s| && s[i] == c && s[j] == c
    ensures Count(s, c) >= 2
  {
    assert s == s[..j] + s[j..];
    CountAppend(s[..j], s[j..], c);
    assert s[..j][i] == c;
    assert s[j..][0] == c;
  }

  /** On as-written keypad text, the label is in iff its last character is. */
  lemma BulletTextContains(s: string)
    requires BulletText(s)
    ensures Contains(s, Label) <==> LabelEnd in s
  {
    if Contains(s, Label) {
      ContainsLabelEnd(s);
    }
    if LabelEnd in s {
      var k :| 0 <= k < |s| && s[k] == LabelEnd;
      assert s[k - 2..][..|Label|] == s[k - 2..k + 1];
    }
  }

  /** As-written keypad text holds the full label at most once. */
  lemma BulletTextLabelOnce(s: string)
    requires BulletText(s)
    ensures LabelAtMostOnce(s)
  {
    forall i, j | 0 <= i < j <= |s| - |Label|
      ensures !(s[i..][..|Label|] == Label && s[j..][..|Label|] == Label)
    {
      if s[i..][..|Label|] == Label && s[j..][..|Label|] == Label {
        assert s[i + 2] == s[i..][..|Label|][2];
        assert s[j + 2] == s[j..][..|Label|][2];
        CountTwo(s, LabelEnd, i + 2, j + 2);
      }
    }
  }

  lemma CountDropLast(s: string, c: char)
    requires s != ""
    ensures Count(s, c) == Count(s[..|s| - 1], c) + (if s[|s| - 1] == c then 1 else 0)
  {
    assert s == s[..|s| - 1] + [s[|s| - 1]];
    CountAppend(s[..|s| - 1], [s[|s| - 1]], c);
  }

  lemma BulletTextDropLast(amount: string)
    requires BulletText(amount) && amount != ""
    ensures BulletText(amount[..|amount| - 1])
  {
    var r := amount[..|amount| - 1];
    CountDropLast(amount, LabelEnd);
    forall i | 0 <= i < |r| && r[i] == LabelEnd ensures 2 <= i && r[i - 2..i + 1] == Label {
      assert amount[i] == r[i];
      assert amount[i - 2..i + 1] == r[i - 2..i + 1];
    }
  }

  lemma BulletTextAppendLabel(amount: string)
    requires BulletText(amount) && !Contains(amount, Label)
    ensures BulletText(amount + Label)
  {
    var r := amount + Label;
    BulletTextContains(amount);
    CountAppend(amount, Label, LabelEnd);
    assert Count(Label, LabelEnd) == 1;
    assert forall i :: 0 <= i < |amount| ==> r[i] == amount[i];
    forall i | 0 <= i < |r| && r[i] == LabelEnd ensures 2 <= i && r[i - 2..i + 1] == Label {
      assert i == |amount| + 2;
      assert r[i - 2..i + 1] == Label;
    }
  }

  lemma BulletTextAppendDigit(amount: string, c: char)
    requires BulletText(amount) && IsDigit(c)
    ensures BulletText(amount + [c])
  {
    var r := amount + [c];
    CountAppend(amount, [c], LabelEnd);
    assert Count([c], LabelEnd) == 0;
    forall i | 0 <= i < |r| && r[i] == LabelEnd ensures 2 <= i && r[i - 2..i + 1] == Label {
      assert amount[i] == r[i];
      assert amount[i - 2..i + 1] == r[i - 2..i + 1];
    }
  }

  /** Every key keeps as-written keypad text, which holds the full label at most once. */
  lemma NextAmountKeepsBulletText(amount: string, key: Key)
    requires BulletText(amount) && OnPad(key)
    ensures BulletText(NextAmount(amount, key))
    ensures LabelAtMostOnce(NextAmount(amount, key))
  {
    match key {
      case Backspace =>
        if amount != "" {
          BulletTextDropLast(amount);
        }
      case Clear =>
      case Decimal =>
        if !Contains(amount, Label) && amount != "" {
          BulletTextAppendLabel(amount);
        } else if amount == "" {
          assert Count("0.", LabelEnd) == 0;
        }
      case Digit(c) =>
        if |amount| < 10 {
          BulletTextAppendDigit(amount, c);
        }
    }
    BulletTextLabelOnce(NextAmount(amount, key));
  }

  /** Pressing a whole sequence of keys on the keypad as written. */
  function PressAllAsWritten(amount: string, keys: seq<Key>): string
    decreases |keys|
  {
    if keys == [] then amount else PressAllAsWritten(NextAmount(amount, keys[0]), keys[1..])
  }

  /** From "", no key sequence puts the full label into the amount twice. */
  lemma {:induction false} PressAllAsWrittenKeepsBulletText(amount: string, keys: seq<Key>)
    requires BulletText(amount)
    requires forall i :: 0 <= i < |keys| ==> OnPad(keys[i])
    ensures BulletText(PressAllAsWritten(amount, keys))
    ensures LabelAtMostOnce(PressAllAsWritten(amount, keys))
    decreases |keys|
  {
    if keys == [] {
      BulletTextLabelOnce(amount);
    } else {
      NextAmountKeepsBulletText(amount, keys[0]);
      PressAllAsWrittenKeepsBulletText(NextAmount(amount, keys[0]), keys[1..]);
    }
  }

  /**
   * What the corrected keypad can produce: empty, or a leading digit
   * followed by digits and at most one '.'; at most ten characters before a
   * '.' is entered, eleven after.
   */
  ghost predicate PadText(s: string) {
    && |s| <= 11
    && ('.' !in s ==> |s| <= 10)
    && Count(s, '.') <= 1
    && (forall i :: 0 <= i < |s| ==> IsDigit(s[i]) || s[i] == '.')
    && (s != "" ==> IsDigit(s[0]))
  }

  lemma BackspaceKeepsPadText(amount: string)
    requires PadText(amount) && amount != ""
    ensures PadText(amount[..|amount| - 1])
  {
    CountDropLast(amount, '.');
    var r := amount[..|amount| - 1];
    forall i | 0 <= i < |r| ensures r[i] == amount[i] { }
  }

  lemma DecimalKeepsPadText(amount: string)
    requires PadText(amount) && '.' !in amount && amount != ""
    ensures PadText(amount + ".")
  {
    CountAppend(amount, ".", '.');
    var r := amount + ".";
    forall i | 0 <= i < |r| ensures IsDigit(r[i]) || r[i] == '.' {
      if i < |amount| { assert r[i] == amount[i]; }
    }
  }

  lemma DigitKeepsPadText(amount: string, c: char)
    requires PadText(amount) && |amount| < 10 && IsDigit(c)
    ensures PadText(amount + [c])
  {
    CountAppend(amount, [c], '.');
    assert Count([c], '.') == 0;
    var r := amount + [c];
    forall i | 0 <= i < |r| ensures IsDigit(r[i]) || r[i] == '.' {
      if i < |amount| { assert r[i] == amount[i]; }
    }
  }

  lemma KeypadStepKeepsPadText(amount: string, key: Key)
    requires PadText(amount) && OnPad(key)
    ensures PadText(KeypadStep(amount, key))
  {
    match key
    case Backspace =>
      if amount != "" {
        BackspaceKeepsPadText(amount);
      }
    case Clear =>
    case Decimal =>
      if '.' !in amount && amount != "" {
        DecimalKeepsPadText(amount);
      } else if amount == "" {
        assert Count("0.", '.') == 1;
      }
    case Digit(c) =>
      if |amount| < 10 {
        DigitKeepsPadText(amount, c);
      }
  }

  /** Pressing a whole sequence of keys, one after the other. */
  function PressAll(amount: string, keys: seq<Key>): string
    decreases |keys|
  {
    if keys == [] then amount else PressAll(KeypadStep(amount, keys[0]), keys[1..])
  }

  lemma {:induction false} PressAllKeepsPadText(amount: string, keys: seq<Key>)
    requires PadText(amount)
    requires forall i :: 0 <= i < |keys| ==> OnPad(keys[i])
    ensures PadText(PressAll(amount, keys))
    decreases |keys|
  {
    if keys != [] {
      KeypadStepKeepsPadText(amount, keys[0]);
      PressAllKeepsPadText(KeypadStep(amount, keys[0]), keys[1..]);
    }
  }

  // ---------------------------------------------------------------------------
  // Reading the amount

  function Pow10(n: nat): (r: real)
    ensures r >= 1.0
  {
    if n == 0 then 1.0 else 10.0 * Pow10(n - 1)
  }

  /**
   * `toDoubleOrNull` on the text the keypad produces: digits, optionally
   * split by one '.', with at least one digit, read as an exact decimal.
   * Any other text reads as `None`.
   */
  function ParseAmount(s: string): Option<real> {
    var whole := SubstringBefore(s, '.');
    if |whole| == |s| then
      if s != "" && AllDigits(s) then Some(DigitsValue(s) as real) else None
    else
      var fraction := s[|whole| + 1..];
      if AllDigits(whole) && AllDigits(fraction) && (whole != "" || fraction != "")
      then Some(DigitsValue(whole) as real + DigitsValue(fraction) as real / Pow10(|fraction|))
      else None
  }

  predicate HasNonZeroDigit(s: string) {
    exists i :: 0 <= i < |s| && IsDigit(s[i]) && s[i] != '0'
  }

  lemma {:induction false} DigitsValuePositive(s: string)
    requires AllDigits(s)
    ensures DigitsValue(s) > 0 <==> HasNonZeroDigit(s)
    decreases |s|
  {
    if s != [] {
      var p := s[..|s| - 1];
      DigitsValuePositive(p);
      if HasNonZeroDigit(p) {
        var i :| 0 <= i < |p| && IsDigit(p[i]) && p[i] != '0';
        assert s[i] == p[i];
      }
      if HasNonZeroDigit(s) {
        var i :| 0 <= i < |s| && IsDigit(s[i]) && s[i] != '0';
        if i < |p| {
          assert p[i] == s[i];
        }
      }
    }
  }

  /** The parser only accepts digits and '.'; in particular no character of the decimal key's label. */
  lemma ParseAmountAlphabet(s: string)
    requires ParseAmount(s).Some?
    ensures forall i :: 0 <= i < |s| ==> IsDigit(s[i]) || s[i] == '.'
    ensures forall i :: 0 <= i < |s| ==> s[i] !in Label
  {
    var whole := SubstringBefore(s, '.');
    if |whole| < |s| {
      var fraction := s[|whole| + 1..];
      forall i | 0 <= i < |s| ensures IsDigit(s[i]) || s[i] == '.' {
        if i < |whole| {
          assert s[i] == whole[i];
        } else if i > |whole| {
          assert s[i] == fraction[i - |whole| - 1];
        }
      }
    }
  }

  lemma QuotientPositive(a: real, b: real)
    requires a >= 0.0 && b > 0.0
    ensures a / b > 0.0 <==> a > 0.0
  {
    if a > 0.0 {
      assert a / b * b == a;
    }
  }

  /** A keypad text with a point splits into a non-empty run of digits, the point, and a run of digits. */
  lemma PadTextPieces(s: string, whole: string, fraction: string)
    requires PadText(s) && s == whole + "." + fraction && '.' !in whole
    ensures whole != "" && AllDigits(whole) && AllDigits(fraction)
    ensures HasNonZeroDigit(s) <==> HasNonZeroDigit(whole) || HasNonZeroDigit(fraction)
  {
    CountAppend(whole + ".", fraction, '.');
    CountAppend(whole, ".", '.');
    assert '.' !in fraction;
    assert s[0] != '.';
    forall i | 0 <= i < |whole| ensures whole[i] == s[i] { }
    forall i | 0 <= i < |fraction| ensures fraction[i] == s[|whole| + 1 + i] { }
    if HasNonZeroDigit(s) {
      var i :| 0 <= i < |s| && IsDigit(s[i]) && s[i] != '0';
      if i < |whole| {
        assert whole[i] == s[i];
      } else {
        assert fraction[i - |whole| - 1] == s[i];
      }
    }
  }

  /** Every non-empty text the corrected keypad produces reads as a number, positive iff it has a non-zero digit. */
  lemma PadTextParses(s: string)
    requires PadText(s) && s != ""
    ensures ParseAmount(s).Some?
    ensures ParseAmount(s).value > 0.0 <==> HasNonZeroDigit(s)
  {
    var whole := SubstringBefore(s, '.');
    if |whole| == |s| {
      assert whole == s;
      DigitsValuePositive(s);
    } else {
      var fraction := s[|whole| + 1..];
      assert s == whole + "." + fraction;
      PadTextPieces(s, whole, fraction);
      DigitsValuePositive(whole);
      DigitsValuePositive(fraction);
      var w, f := DigitsValue(whole) as real, DigitsValue(fraction) as real / Pow10(|fraction|);
      QuotientPositive(DigitsValue(fraction) as real, Pow10(|fraction|));
      assert ParseAmount(s) == Some(w + f);
    }
  }

  // ---------------------------------------------------------------------------
  // Saving

  /** The save button's condition: a category, a readable amount above zero, and a title. */
  predicate CanSave(selectedCategory: Option<CategoryEntity>, amount: string, title: string) {
    selectedCategory.Some? && ParseAmount(amount).Some? && title != "" && ParseAmount(amount).value > 0.0
  }

  /** On keypad text, saving is allowed exactly when a category and a title are set and some digit is not 0. */
  lemma CanSaveOnPadText(selectedCategory: Option<CategoryEntity>, amount: string, title: string)
    requires PadText(amount)
    ensures CanSave(selectedCategory, amount, title) <==>
      selectedCategory.Some? && title != "" && HasNonZeroDigit(amount)
  {
    if amount != "" {
      PadTextParses(amount);
    }
  }

  /** An amount holding any character of the decimal key's label, a fragment left by backspace included, can never be saved. */
  lemma FragmentBlocksSave(selectedCategory: Option<CategoryEntity>, amount: string, title: string, k: int)
    requires 0 <= k < |amount| && amount[k] in Label
    ensures !CanSave(selectedCategory, amount, title)
  {
    if ParseAmount(amount).Some? {
      ParseAmountAlphabet(amount);
    }
  }

  /** With the decimal key as written, an amount holding its label can never be saved. */
  lemma BulletBlocksSave(selectedCategory: Option<CategoryEntity>, amount: string, title: string)
    requires Contains(amount, Label)
    ensures !CanSave(selectedCategory, amount, title)
  {
    ContainsLabelEnd(amount);
    var k :| 0 <= k < |amount| && amount[k] == LabelEnd;
    FragmentBlocksSave(selectedCategory, amount, title, k);
  }

  /** Once the label is in, only backspace or "Clear" can take it out again. */
  lemma BulletSticks(amount: string, key: Key)
    requires Contains(amount, Label) && key != Backspace && key != Clear
    ensures Contains(NextAmount(amount, key), Label)
  {
    var r := NextAmount(amount, key);
    var i :| 0 <= i <= |amount| - |Label| && amount[i..][..|Label|] == Label;
    assert r[..|amount|] == amount;
    assert r[i..][..|Label|] == amount[i..][..|Label|];
  }

  /** Typing 1, 2, decimal, 5 as written gives "12", the label, "5", which the save button rejects. */
  lemma TwelveAndAHalfAsWritten(category: CategoryEntity)
    ensures NextAmount(NextAmount(NextAmount(NextAmount("", Digit('1')), Digit('2')), Decimal), Digit('5')) == "12" + Label + "5"
    ensures !CanSave(Some(category), "12" + Label + "5", "Lunch")
  {
    assert NextAmount("", Digit('1')) == "1";
    assert NextAmount("1", Digit('2')) == "12";
    assert !Contains("12", Label);
    assert NextAmount("12", Decimal) == "12" + Label;
    assert |"12" + Label| < 10;
    assert ("12" + Label + "5")[4] == LabelEnd;
    FragmentBlocksSave(Some(category), "12" + Label + "5", "Lunch", 4);
  }

  /**
   * Typing 1, 2, decimal, backspace as written takes off only the label's
   * last character: the amount is "12" and two label characters, which the
   * save button rejects.
   */
  lemma BackspaceLeavesFragment(category: CategoryEntity)
    ensures NextAmount(NextAmount(NextAmount(NextAmount("", Digit('1')), Digit('2')), Decimal), Backspace) == "12" + Label[..2]
    ensures !CanSave(Some(category), "12" + Label[..2], "Lunch")
  {
    assert NextAmount("", Digit('1')) == "1";
    assert NextAmount("1", Digit('2')) == "12";
    assert !Contains("12", Label);
    assert NextAmount("12", Decimal) == "12" + Label;
    assert ("12" + Label)[..4] == "12" + Label[..2];
    assert ("12" + Label[..2])[2] == Label[0];
    FragmentBlocksSave(Some(category), "12" + Label[..2], "Lunch", 2);
  }

  /** The same keys on the corrected keypad give back "12", read as 12 and accepted. */
  lemma BackspaceAfterPointCorrected(category: CategoryEntity)
    ensures KeypadStep(KeypadStep(KeypadStep(KeypadStep("", Digit('1')), Digit('2')), Decimal), Backspace) == "12"
    ensures ParseAmount("12") == Some(12.0)
    ensures CanSave(Some(category), "12", "Lunch")
  {
    assert KeypadStep("", Digit('1')) == "1";
    assert KeypadStep("1", Digit('2')) == "12";
    assert '.' !in "12";
    assert KeypadStep("12", Decimal) == "12.";
    assert "12."[..2] == "12";
    assert SubstringBefore("12", '.') == "12" by {
      assert "12"[1..] == "2" && "2"[1..] == "";
    }
    assert DigitsValue("12") == 12 by {
      assert "12"[..1] == "1";
      assert DigitsValue("1") == 1 by { assert "1"[..0] == ""; }
    }
  }

  /** Decimal then backspace, `n` times over. */
  function DecimalBackspaces(n: nat): (keys: seq<Key>)
    ensures |keys| == 2 * n
  {
    if n == 0 then [] else [Decimal, Backspace] + DecimalBackspaces(n - 1)
  }

  /**
   * As written, decimal then backspace on a non-empty amount without the
   * label's last character adds the label's first two characters, and the
   * label is then no longer contained, so the next decimal appends it again.
   */
  lemma DecimalBackspaceGrows(amount: string)
    requires amount != "" && LabelEnd !in amount
    ensures NextAmount(NextAmount(amount, Decimal), Backspace) == amount + Label[..2]
    ensures LabelEnd !in amount + Label[..2]
  {
    if Contains(amount, Label) {
      ContainsLabelEnd(amount);
    }
    assert (amount + Label)[..|amount| + 2] == amount + Label[..2];
  }

  /** So the as-written amount has no length bound: `n` rounds add `2 * n` characters. */
  lemma {:induction false} DecimalBackspacesGrow(amount: string, n: nat)
    requires amount != "" && LabelEnd !in amount
    ensures |PressAllAsWritten(amount, DecimalBackspaces(n))| == |amount| + 2 * n
    ensures LabelEnd !in PressAllAsWritten(amount, DecimalBackspaces(n))
    ensures PressAllAsWritten(amount, DecimalBackspaces(n))[..|amount|] == amount
    ensures n > 0 ==> PressAllAsWritten(amount, DecimalBackspaces(n))[|amount|] == Label[0]
    decreases n
  {
    var keys := DecimalBackspaces(n);
    if n > 0 {
      DecimalBackspaceGrows(amount);
      var next := amount + Label[..2];
      assert keys[1..][1..] == DecimalBackspaces(n - 1);
      assert PressAllAsWritten(amount, keys) == PressAllAsWritten(next, DecimalBackspaces(n - 1));
      DecimalBackspacesGrow(next, n - 1);
      var r := PressAllAsWritten(next, DecimalBackspaces(n - 1));
      assert r[..|amount|] == r[..|next|][..|amount|];
      assert r[|amount|] == r[..|next|][|amount|];
    } else {
      assert PressAllAsWritten(amount, keys) == amount;
    }
  }

  /** After a digit, `n` rounds of decimal and backspace leave a `1 + 2 * n` character amount that cannot be saved. */
  lemma AsWrittenUnbounded(category: CategoryEntity, n: nat)
    requires n > 0
    ensures |PressAllAsWritten("1", DecimalBackspaces(n))| == 1 + 2 * n
    ensures !CanSave(Some(category), PressAllAsWritten("1", DecimalBackspaces(n)), "Lunch")
  {
    assert LabelEnd !in "1";
    DecimalBackspacesGrow("1", n);
    var r := PressAllAsWritten("1", DecimalBackspaces(n));
    FragmentBlocksSave(Some(category), r, "Lunch", 1);
  }

  /** The same keys on the corrected keypad give "12.5", read as 12.5 and accepted. */
  lemma TwelveAndAHalfCorrected(category: CategoryEntity)
    ensures PressAll("", [Digit('1'), Digit('2'), Decimal, Digit('5')]) == "12.5"
    ensures ParseAmount("12.5") == Some(12.5)
    ensures CanSave(Some(category), "12.5", "Lunch")
  {
    var keys := [Digit('1'), Digit('2'), Decimal, Digit('5')];
    assert KeypadStep("", Digit('1')) == "1";
    assert KeypadStep("1", Digit('2')) == "12";
    assert '.' !in "12";
    assert KeypadStep("12", Decimal) == "12.";
    assert KeypadStep("12.", Digit('5')) == "12.5";
    assert keys[1..][1..][1..][1..] == [];
    assert PressAll("12.5", []) == "12.5";
    assert PressAll("12.", [Digit('5')]) == "12.5";
    assert PressAll("12", [Decimal, Digit('5')]) == "12.5";
    assert PressAll("1", [Digit('2'), Decimal, Digit('5')]) == "12.5";
    ParseTwelveAndAHalf();
  }

  /**
   * The decimal key on an empty amount gives "0." with a real full stop, so
   * a fraction below one entered decimal-first does save as written.
   */
  lemma HalfAsWrittenSaves(category: CategoryEntity, title: string)
    requires title != ""
    ensures NextAmount(NextAmount("", Decimal), Digit('5')) == "0.5"
    ensures ParseAmount("0.5") == Some(0.5)
    ensures CanSave(Some(category), "0.5", title)
  {
    assert NextAmount("", Decimal) == "0.";
    assert NextAmount("0.", Digit('5')) == "0.5";
    assert SubstringBefore("0.5", '.') == "0" by {
      assert "0.5"[1..] == ".5";
    }
    assert "0.5"[2..] == "5";
    assert DigitsValue("0") == 0 by { assert "0"[..0] == ""; }
    assert DigitsValue("5") == 5 by { assert "5"[..0] == ""; }
    assert Pow10(1) == 10.0;
  }

  lemma ParseTwelveAndAHalf()
    ensures ParseAmount("12.5") == Some(12.5)
  {
    assert SubstringBefore("12.5", '.') == "12" by {
      assert "12.5"[1..] == "2.5" && "2.5"[1..] == ".5";
    }
    assert "12.5"[3..] == "5";
    assert DigitsValue("12") == 12 by {
      assert "12"[..1] == "1";
      assert DigitsValue("1") == 1 by { assert "1"[..0] == ""; }
    }
    assert DigitsValue("5") == 5 by { assert "5"[..0] == ""; }
    assert Pow10(1) == 10.0;
  }

  /** The stored amount: the keypad value for income (type 0), its negation otherwise. */
  function SignedAmount(transactionType: int, value: real): real {
    if transactionType == IncomeType then value else -value
  }

  lemma SignRule(transactionType: int, value: real)
    requires value > 0.0
    ensures SignedAmount(transactionType, value) > 0.0 <==> transactionType == IncomeType
    ensures SignedAmount(transactionType, value) < 0.0 <==> transactionType != IncomeType
    ensures SignedAmount(transactionType, value) == value || SignedAmount(transactionType, value) == -value
  {
  }

  /** The row the save button writes, before the store assigns an id. */
  function EntryRow(category: CategoryEntity, title: string, transactionType: int, time: string,
                    value: real, date: string, memo: string): (r: Transaction)
    ensures r.id == Unassigned && r.category == category.id
    ensures r.title == title && r.transactionType == transactionType && r.note == memo
    ensures r.time == time && r.date == date
  {
    NewTransaction(category.id, title, transactionType, time, SignedAmount(transactionType, value), date, memo)
  }

  // ---------------------------------------------------------------------------
  // The memo

  const MemoLimit: nat := 100
  const MemoPreviewLength: nat := 15

  /**
   * The memo field's `onValueChange`: a value longer than the limit is
   * ignored, so the memo is the typed value or the old one and never grows
   * past the limit.
   */
  function EditMemo(memo: string, newValue: string): (r: string)
    ensures r == newValue || r == memo
    ensures |memo| <= MemoLimit ==> |r| <= MemoLimit
    ensures |newValue| <= MemoLimit ==> r == newValue
    ensures |newValue| > MemoLimit ==> r == memo
  {
    if |newValue| <= MemoLimit then newValue else memo
  }

  /** The memo button's label. */
  function MemoPreview(memo: string): string {
    if memo == "" then "Add note"
    else if |memo| > MemoLimit then Take(memo, MemoPreviewLength) + "..." + " (Too long: " + NatToString(|memo|) + " chars)"
    else Take(memo, MemoPreviewLength) + (if |memo| > MemoPreviewLength then "..." else "")
  }

  /**
   * A short memo is shown whole; a longer one within the limit is cut to
   * its first fifteen characters and an ellipsis.
   */
  lemma MemoPreviewSpec(memo: string)
    ensures memo == "" ==> MemoPreview(memo) == "Add note"
    ensures 0 < |memo| <= MemoPreviewLength ==> MemoPreview(memo) == memo
    ensures MemoPreviewLength < |memo| <= MemoLimit ==>
      |MemoPreview(memo)| == 18 && MemoPreview(memo)[..15] == memo[..15] && MemoPreview(memo)[15..] == "..."
  {
  }

  /** A memo over the limit also shows its length, which reads back as the memo's length. */
  lemma MemoPreviewTooLong(memo: string)
    requires |memo| > MemoLimit
    ensures var r := MemoPreview(memo);
      && |r| > 37 && r[..15] == memo[..15] && r[15..30] == "... (Too long: " && r[|r| - 7..] == " chars)"
      && AllDigits(r[30..|r| - 7]) && DigitsValue(r[30..|r| - 7]) == |memo|
  {
    var r := MemoPreview(memo);
    var head, n := memo[..15], NatToString(|memo|);
    assert r == head + "... (Too long: " + n + " chars)";
    assert r[30..|r| - 7] == n;
    NatToStringRoundTrip(|memo|);
  }

  // ---------------------------------------------------------------------------
  // The clock text

  /** The 12-hour clock's hour: 0 and 12 show as 12. */
  function DisplayHour(hour: int): int {
    if hour % 12 == 0 then 12 else hour % 12
  }

  /** `getCurrentTime()` for the clock reading `hour:minute` (24-hour): "%02d:%02d %s". */
  function CurrentTime(hour: int, minute: int): string
    requires 0 <= hour < 24 && 0 <= minute < 60
  {
    Format02(DisplayHour(hour)) + ":" + Format02(minute) + " " + (if hour >= 12 then "PM" else "AM")
  }

  /** Where the hour, the minute and the AM/PM letter sit in the text. */
  lemma CurrentTimePieces(hour: int, minute: int)
    requires 0 <= hour < 24 && 0 <= minute < 60
    ensures var r := CurrentTime(hour, minute);
      && |r| == 8 && r[..2] == Format02(DisplayHour(hour)) && r[3..5] == Format02(minute)
      && r[6] == (if hour >= 12 then 'P' else 'A')
  {
    var h, m := Format02(DisplayHour(hour)), Format02(minute);
    var tail := " " + (if hour >= 12 then "PM" else "AM");
    var r := CurrentTime(hour, minute);
    assert r == h + ":" + m + tail;
    assert r[3..5] == m by {
      forall i | 0 <= i < 2 ensures r[3 + i] == m[i] { }
    }
  }

  /**
   * The text is eight characters: a two-digit hour in 1..12 that agrees
   * with the reading modulo 12, ':', the two-digit minute, and "PM" exactly
   * from noon on.
   */
  lemma CurrentTimeSpec(hour: int, minute: int)
    requires 0 <= hour < 24 && 0 <= minute < 60
    ensures var r := CurrentTime(hour, minute);
      && |r| == 8 && r[2] == ':' && r[5] == ' '
      && AllDigits(r[..2]) && 1 <= DigitsValue(r[..2]) <= 12 && DigitsValue(r[..2]) % 12 == hour % 12
      && AllDigits(r[3..5]) && DigitsValue(r[3..5]) == minute
      && (r[6..] == "PM" <==> hour >= 12)
      && (r[6..] == "AM" <==> hour < 12)
  {
    var r := CurrentTime(hour, minute);
    assert r[..2] == Format02(DisplayHour(hour));
    assert r[3..5] == Format02(minute);
  }

  /** Different clock readings give different texts. */
  lemma CurrentTimeInjective(h1: int, m1: int, h2: int, m2: int)
    requires 0 <= h1 < 24 && 0 <= m1 < 60 && 0 <= h2 < 24 && 0 <= m2 < 60
    requires CurrentTime(h1, m1) == CurrentTime(h2, m2)
    ensures h1 == h2 && m1 == m2
  {
    CurrentTimePieces(h1, m1);
    CurrentTimePieces(h2, m2);
    Format02Injective(DisplayHour(h1), DisplayHour(h2));
    Format02Injective(m1, m2);
  }
}
