/** Spreadsheet cell references: column letters read as a bijective base-26 numeral
    (`col2num`) and an A1-style reference turned into a zero-based (row, column) pair
    (`a1_to_rc`). */
module CellRef {
  import opened Base
  import opened Text

  /** The digit a letter stands for, case-insensitively: A and a are 1, Z and z are 26. */
  function LetterValue(c: char): (v: nat)
    requires IsAsciiLetter(c)
    ensures 1 <= v <= 26
  {
    UpperChar(c) as int - 'A' as int + 1
  }

  /** The number col2num computes: every ASCII letter, read left to right, is a digit of a
      bijective base-26 numeral; every other character is skipped. */
  function ColumnNumber(col: string): nat
  {
    if col == [] then 0
    else
      var c := col[|col| - 1];
      var rest := ColumnNumber(col[..|col| - 1]);
      if IsAsciiLetter(c) then rest * 26 + LetterValue(c) else rest
  }

  /** col2num: the accumulator loop over the characters of the column letters. */
  method Col2Num(col: string) returns (num: nat)
    ensures num == ColumnNumber(col)
  {
    num := 0;
    for i := 0 to |col|
      invariant num == ColumnNumber(col[..i])
    {
      assert col[..i + 1][..i] == col[..i];
      if IsAsciiLetter(col[i]) {
        num := num * 26 + LetterValue(col[i]);
      }
    }
    assert col[..|col|] == col;
  }

  /** The letters of s, in order. */
  function Letters(s: string): (t: string)
    ensures forall i :: 0 <= i < |t| ==> IsAsciiLetter(t[i])
  {
    if s == [] then []
    else Letters(s[..|s| - 1]) + (if IsAsciiLetter(s[|s| - 1]) then [s[|s| - 1]] else [])
  }

  /** Characters other than letters (the `$` of an absolute reference, say) are ignored. */
  lemma {:induction false} ColumnNumberIgnoresNonLetters(s: string)
    ensures ColumnNumber(s) == ColumnNumber(Letters(s))
  {
    if s != [] {
      var init := s[..|s| - 1];
      ColumnNumberIgnoresNonLetters(init);
      var t := Letters(s);
      if IsAsciiLetter(s[|s| - 1]) {
        assert t == Letters(init) + [s[|s| - 1]];
        assert t[..|t| - 1] == Letters(init);
        assert ColumnNumber(t) == ColumnNumber(Letters(init)) * 26 + LetterValue(s[|s| - 1]);
      } else {
        assert t == Letters(init);
      }
    }
  }

  /** Letters are read case-insensitively. */
  lemma {:induction false} ColumnNumberIgnoresCase(s: string)
    ensures ColumnNumber(Upper(s)) == ColumnNumber(s)
  {
    if s != [] {
      var init := s[..|s| - 1];
      ColumnNumberIgnoresCase(init);
      assert Upper(s)[..|s| - 1] == Upper(init);
    }
  }

  /** The column letters of a 1-based column number: the inverse of ColumnNumber on
      upper-case letter strings. */
  function ColumnName(n: nat): (s: string)
    ensures forall i :: 0 <= i < |s| ==> IsUpperLetter(s[i])
    ensures n > 0 <==> |s| > 0
  {
    if n == 0 then [] else ColumnName((n - 1) / 26) + [('A' as int + (n - 1) % 26) as char]
  }

  lemma {:induction false} ColumnNameRoundTrip(n: nat)
    ensures ColumnNumber(ColumnName(n)) == n
  {
    if n > 0 {
      ColumnNameRoundTrip((n - 1) / 26);
      var s := ColumnName(n);
      assert s[..|s| - 1] == ColumnName((n - 1) / 26);
    }
  }

  /** Distinct upper-case letter strings denote distinct numbers: reading them back
      through ColumnName recovers the letters. */
  lemma {:induction false} ColumnNumberRoundTrip(s: string)
    requires forall i :: 0 <= i < |s| ==> IsUpperLetter(s[i])
    ensures ColumnName(ColumnNumber(s)) == s
  {
    if s != [] {
      var init := s[..|s| - 1];
      var c := s[|s| - 1];
      ColumnNumberRoundTrip(init);
      var n := ColumnNumber(s);
      assert n == ColumnNumber(init) * 26 + LetterValue(c);
      assert (n - 1) / 26 == ColumnNumber(init);
      assert (n - 1) % 26 == c as int - 'A' as int;
      assert s == init + [c];
    }
  }

  lemma ColumnNumberExamples()
    ensures ColumnNumber("A") == 1 && ColumnNumber("Z") == 26 && ColumnNumber("AA") == 27
    ensures ColumnNumber("a") == 1 && ColumnNumber("$A$") == 1
  {
    assert "$A$"[..2] == "$A" && "$A"[..1] == "$" && "$"[..0] == [];
  }

  function DropLeadingDigits(s: string): (t: string)
    ensures |t| <= |s|
    ensures t == [] || !IsDigit(t[0])
  {
    if s != [] && IsDigit(s[0]) then DropLeadingDigits(s[1..]) else s
  }

  function DropTrailingDigits(s: string): (t: string)
    ensures |t| <= |s|
    ensures t == [] || !IsDigit(t[|t| - 1])
  {
    if s != [] && IsDigit(s[|s| - 1]) then DropTrailingDigits(s[..|s| - 1]) else s
  }

  /** Python's `s.strip(string.digits)`: digits removed from both ends. */
  function StripDigits(s: string): (t: string)
    ensures |t| <= |s|
  {
    DropTrailingDigits(DropLeadingDigits(s))
  }

  /** a1_to_rc: the column letters are what remains once digits are stripped from both
      ends; the row number is the rest of the reference after as many characters as the
      letters have. Both are made zero-based. */
  function A1ToRc(cell: string): (r: Result<(int, int)>)
  {
    var letters := StripDigits(cell);
    var columnNumber := ColumnNumber(letters) - 1;
    var row :- ParseInt(cell[|letters|..]);
    Ok((row - 1, columnNumber))
  }

  lemma {:induction false} DropTrailingDigitsOfNumber(letters: string, digits: string)
    requires AllDigits(digits)
    requires letters == [] || !IsDigit(letters[|letters| - 1])
    ensures DropTrailingDigits(letters + digits) == letters
    decreases |digits|
  {
    if digits == [] {
      assert letters + digits == letters;
    } else {
      var s := letters + digits;
      assert s[..|s| - 1] == letters + digits[..|digits| - 1];
      DropTrailingDigitsOfNumber(letters, digits[..|digits| - 1]);
    }
  }

  lemma {:induction false} DropLeadingDigitsOfDigits(digits: string)
    requires AllDigits(digits)
    ensures DropLeadingDigits(digits) == []
    decreases |digits|
  {
    if digits != [] {
      DropLeadingDigitsOfDigits(digits[1..]);
    }
  }

  /** Stripping the digits of a reference leaves its column part. */
  lemma StripDigitsOfReference(letters: string, digits: string)
    requires AllDigits(digits)
    requires letters == [] || (!IsDigit(letters[0]) && !IsDigit(letters[|letters| - 1]))
    ensures StripDigits(letters + digits) == letters
  {
    var cell := letters + digits;
    if letters == [] {
      assert cell == digits;
      DropLeadingDigitsOfDigits(digits);
    } else {
      assert cell[0] == letters[0];
      assert DropLeadingDigits(cell) == cell;
      DropTrailingDigitsOfNumber(letters, digits);
    }
  }

  /** A reference made of column letters (possibly with `$` or other non-digits, but
      neither starting nor ending with a digit) followed by a row numeral converts to
      (row - 1, column - 1). */
  lemma A1ToRcOfReference(letters: string, digits: string)
    requires |digits| > 0 && AllDigits(digits)
    requires letters == [] || (!IsDigit(letters[0]) && !IsDigit(letters[|letters| - 1]))
    ensures A1ToRc(letters + digits) == Ok((DigitsValue(digits) - 1, ColumnNumber(letters) - 1))
  {
    var cell := letters + digits;
    StripDigitsOfReference(letters, digits);
    assert cell[|letters|..] == digits;
    ParseIntOfDigits(digits);
    A1ToRcOfRow(cell, letters, DigitsValue(digits));
  }

  /** Once the text after the column part reads as a row number, that number less one
      is the row. */
  lemma A1ToRcOfRow(cell: string, letters: string, row: int)
    requires StripDigits(cell) == letters
    requires ParseInt(cell[|letters|..]) == Ok(row)
    ensures A1ToRc(cell) == Ok((row - 1, ColumnNumber(letters) - 1))
  {
  }

  lemma A1ToRcSplit(cell: string, letters: string)
    requires StripDigits(cell) == letters
    ensures A1ToRc(cell) == match ParseInt(cell[|letters|..])
      case Ok(row) => Ok((row - 1, ColumnNumber(letters) - 1))
      case Err(e) => Err(e)
  {
  }

  /** Writing a zero-based (row, column) pair in A1 notation and reading it back gives
      the pair again. */
  lemma A1RoundTrip(row: nat, col: nat)
    ensures A1ToRc(ColumnName(col + 1) + Decimal(row + 1)) == Ok((row, col))
  {
    var letters := ColumnName(col + 1);
    A1ToRcOfReference(letters, Decimal(row + 1));
    ColumnNameRoundTrip(col + 1);
    DecimalRoundTrip(row + 1);
  }

  /** The row is read from the reference after as many characters as the column part
      has, so a reference that starts with a digit shifts the row text: "1A-2" strips to
      "A-", and `int("-2")` makes the row -3. */
  lemma A1ToRcLeadingDigit()
    ensures StripDigits("1A-2") == "A-"
    ensures A1ToRc("1A-2") == Ok((-3, 0))
  {
    assert DropLeadingDigits("A-2") == "A-2";
    assert "1A-2"[1..] == "A-2";
    assert DropLeadingDigits("1A-2") == "A-2";
    assert "A-2"[..2] == "A-";
    assert DropTrailingDigits("A-") == "A-";
    assert DropTrailingDigits("A-2") == "A-";
    assert "1A-2"[2..] == "-2";
    assert Unsigned("-2") == "2";
    assert DigitsValue("2") == 2;
    assert ColumnNumber("A-") == 1 by {
      ColumnNumberIgnoresNonLetters("A-");
      assert Letters("A-") == "A";
      ColumnNumberExamples();
    }
  }

  lemma A1ToRcFirstCell()
    ensures A1ToRc("A1") == Ok((0, 0))
  {
    A1ToRcOfReference("A", "1");
    assert "A" + "1" == "A1";
    assert DigitsValue("1") == 1;
  }

  lemma A1ToRcTenthRowFourthColumn()
    ensures A1ToRc("D10") == Ok((9, 3))
  {
    A1ToRcOfReference("D", "10");
    assert "D" + "10" == "D10";
    assert "10"[..1] == "1";
    assert DigitsValue("10") == 10;
  }

  lemma A1ToRcAbsoluteReference()
    ensures A1ToRc("$A$1") == Ok((0, 0))
  {
    assert ColumnNumber("$A$") == 1 by { ColumnNumberExamples(); }
    assert DigitsValue("1") == 1;
    A1ToRcOfReference("$A$", "1");
    assert "$A$" + "1" == "$A$1";
  }
}
