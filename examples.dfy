/**
 * The library's documented input/output pairs, stated over the model. Each
 * lemma or method below fixes the behaviour of one function on the exact
 * values of its test in tda_test.py.
 */
module Examples {
  import opened Cells
  import opened NumberValidator
  import opened Sorting
  import opened Aggregator
  import opened Shape
  import opened ColumnConverter
  import opened Slicer

  // ---------------------------------------------------------------------
  // Coercion of the numeric strings the tests use

  /** The text of a well-formed numeral coerces to that numeral's value. */
  lemma TextValue(n: Numeral, s: string, v: real)
    requires WellFormed(n) && Render(n) == s && NumeralValue(n) == v
    ensures ToNumber(Text(s)) == Some(v)
  {
    ToNumberOfNumeral(n);
  }

  /** Texts whose first character is neither a digit nor '-' are not numbers. */
  lemma NotNumberByFirstChar(s: string)
    requires |s| > 0 && s[0] != '-' && !IsDigit(s[0])
    ensures !ValidNumber(Text(s))
  {
  }

  lemma Coerced2000()
    ensures ToNumber(Text("2000.00")) == Some(2000.0)
  {
    assert "2000"[..3] == "200" && "200"[..2] == "20" && "20"[..1] == "2" && "2"[..0] == "";
    assert "00"[..1] == "0" && "0"[..0] == "";
    TextValue(Numeral(false, "2000", Some("00")), "2000.00", 2000.0);
  }

  lemma Coerced22Point5()
    ensures ToNumber(Text("22.5")) == Some(22.5)
  {
    assert "22"[..1] == "2" && "2"[..0] == "" && "5"[..0] == "";
    TextValue(Numeral(false, "22", Some("5")), "22.5", 22.5);
  }

  lemma CoercedMinus5Point5()
    ensures ToNumber(Text("-5.5")) == Some(-5.5)
  {
    assert "5"[..0] == "";
    TextValue(Numeral(true, "5", Some("5")), "-5.5", -5.5);
  }

  lemma Coerced19()
    ensures ToNumber(Text("19")) == Some(19.0)
  {
    assert "19"[..1] == "1" && "1"[..0] == "";
    TextValue(Numeral(false, "19", None), "19", 19.0);
  }

  lemma Coerced1000()
    ensures ToNumber(Text("1000")) == Some(1000.0)
  {
    assert "1000"[..3] == "100" && "100"[..2] == "10" && "10"[..1] == "1" && "1"[..0] == "";
    TextValue(Numeral(false, "1000", None), "1000", 1000.0);
  }

  lemma Coerced1500()
    ensures ToNumber(Text("1500")) == Some(1500.0)
  {
    assert "1500"[..3] == "150" && "150"[..2] == "15" && "15"[..1] == "1" && "1"[..0] == "";
    TextValue(Numeral(false, "1500", None), "1500", 1500.0);
  }

  lemma InvalidIsNotNumber()
    ensures !ValidNumber(Text("invalid"))
  {
    NotNumberByFirstChar("invalid");
  }

  // ---------------------------------------------------------------------
  // valid_number (tda_test.py:15-44)

  lemma ValidNumberAccepts()
    ensures ValidNumber(Num(0.0)) && ValidNumber(Num(1.5)) && ValidNumber(Num(-1.12))
    ensures ValidNumber(Num(100.0)) && ValidNumber(Num(-100.0))
    ensures ValidNumber(Text("1.5")) && ValidNumber(Text("-1.12")) && ValidNumber(Text("100"))
  {
    var a, b, c := Numeral(false, "1", Some("5")), Numeral(true, "1", Some("12")), Numeral(false, "100", None);
    assert WellFormed(a) && Render(a) == "1.5";
    assert WellFormed(b) && Render(b) == "-1.12";
    assert WellFormed(c) && Render(c) == "100";
    ParseRender(a);
    ParseRender(b);
    ParseRender(c);
  }

  /**
   * Digits followed by something other than the end of the text, or a '.'
   * with only digits after it, do not make a number.
   */
  lemma NotNumberAfterDigits(w: string, rest: string)
    requires |w| > 0 && AllDigits(w) && |rest| > 0 && !IsDigit(rest[0])
    requires rest[0] != '.' || |rest| == 1 || DigitRun(rest[1..]) < |rest| - 1
    ensures !ValidNumber(Text(w + rest))
  {
    DigitRunOfPrefix(w, rest);
    var s := w + rest;
    assert s[0] == w[0];
    assert s[|w|] == rest[0];
    assert s[|w| + 1..] == rest[1..];
  }

  lemma RejectsDanglingPoint()
    ensures !ValidNumber(Text("5."))
  {
    NotNumberAfterDigits("5", ".");
    assert "5" + "." == "5.";
  }

  lemma RejectsTrailingLetters()
    ensures !ValidNumber(Text("12ABC"))
  {
    NotNumberAfterDigits("12", "ABC");
    assert "12" + "ABC" == "12ABC";
  }

  lemma RejectsTwoPoints()
    ensures !ValidNumber(Text("1.2.3"))
  {
    DigitRunOfPrefix("2", ".3");
    assert "2" + ".3" == ".2.3"[1..];
    NotNumberAfterDigits("1", ".2.3");
    assert "1" + ".2.3" == "1.2.3";
  }

  lemma ValidNumberRejects()
    ensures !ValidNumber(Text("+1.5")) && !ValidNumber(Text("5.")) && !ValidNumber(Text("1.2.3"))
    ensures !ValidNumber(Text("ABC")) && !ValidNumber(Text("12ABC")) && !ValidNumber(Text(""))
    ensures !ValidNumber(Text(".")) && !ValidNumber(Text("-")) && !ValidNumber(Text("+-1.1"))
  {
    NotNumberByFirstChar("+1.5");
    NotNumberByFirstChar("ABC");
    NotNumberByFirstChar(".");
    NotNumberByFirstChar("+-1.1");
    RejectsDanglingPoint();
    RejectsTrailingLetters();
    RejectsTwoPoints();
    assert !ValidNumber(Text("")) && !ValidNumber(Text("-"));
  }

  // ---------------------------------------------------------------------
  // data_dimensions (tda_test.py:47-63)

  lemma DataDimensionsExamples()
    ensures DataDimensions(Grid([
        [Text("date"), Text("region"), Text("sales")],
        [Text("2024-01"), Text("North"), Num(1000.0)],
        [Text("2024-01"), Text("South"), Num(1500.0)]])) == Some([3, 3])
    ensures DataDimensions(Flat([Num(1000.0), Num(1500.0), Num(2000.0)])) == Some([1, 3])
    ensures DataDimensions(Str("")) == None
    ensures DataDimensions(Null) == None
  {
  }

  // ---------------------------------------------------------------------
  // Helpers for lists of literal values. Each fact about a list display is
  // proved once, for arbitrary elements, so that the lemmas about the test
  // inputs only instantiate them.

  lemma ConsOne<T>(a: T)
    ensures [a] + [] == [a]
  {
  }

  lemma ConsTwo<T>(a: T, b: T)
    ensures [a] + [b] == [a, b]
  {
  }

  lemma ConsThree<T>(a: T, b: T, c: T)
    ensures [a] + [b, c] == [a, b, c]
  {
  }

  lemma ConsFour<T>(a: T, b: T, c: T, d: T)
    ensures [a] + [b, c, d] == [a, b, c, d]
  {
  }

  lemma ConsFive<T>(a: T, b: T, c: T, d: T, e: T)
    ensures [a] + [b, c, d, e] == [a, b, c, d, e]
  {
  }

  /** A four-entry list around its third entry, and the list without it. */
  lemma AroundThirdOfFour<T>(a: T, b: T, c: T, d: T)
    ensures [a, b] + [c] + [d] == [a, b, c, d]
    ensures [a, b] + [d] == [a, b, d]
  {
  }

  /** A five-entry list around its middle entry, and the list without it. */
  lemma AroundThird<T>(a: T, b: T, c: T, d: T, e: T)
    ensures [a, b] + [c] + [d, e] == [a, b, c, d, e]
    ensures [a, b] + [d, e] == [a, b, d, e]
  {
  }

  /** A five-entry list around its second entry, and the list without it. */
  lemma AroundSecond<T>(a: T, b: T, c: T, d: T, e: T)
    ensures [a] + [b] + [c, d, e] == [a, b, c, d, e]
    ensures [a] + [c, d, e] == [a, c, d, e]
  {
  }

  /** A valid entry in front puts its value in front. */
  lemma ValuesCons(c: Cell, rest: seq<Cell>, v: real, xs: seq<real>)
    requires ToNumber(c) == Some(v) && ValidValues(rest) == xs
    ensures ValidValues([c] + rest) == [v] + xs
  {
    assert ([c] + rest)[1..] == rest;
  }

  lemma ValuesOfOne(c: Cell, x: real)
    requires ToNumber(c) == Some(x)
    ensures ValidValues([c]) == [x]
  {
    ValuesCons(c, [], x, []);
    ConsOne(c);
    ConsOne(x);
  }

  lemma ValuesOfThree(c0: Cell, c1: Cell, c2: Cell, x0: real, x1: real, x2: real)
    requires ToNumber(c0) == Some(x0) && ToNumber(c1) == Some(x1) && ToNumber(c2) == Some(x2)
    ensures ValidValues([c0, c1, c2]) == [x0, x1, x2]
  {
    ValuesOfOne(c2, x2);
    ValuesCons(c1, [c2], x1, [x2]);
    ConsTwo(c1, c2);
    ConsTwo(x1, x2);
    ValuesCons(c0, [c1, c2], x0, [x1, x2]);
    ConsThree(c0, c1, c2);
    ConsThree(x0, x1, x2);
  }

  lemma ValuesOfFour(c0: Cell, c1: Cell, c2: Cell, c3: Cell, x0: real, x1: real, x2: real, x3: real)
    requires ToNumber(c0) == Some(x0) && ToNumber(c1) == Some(x1)
    requires ToNumber(c2) == Some(x2) && ToNumber(c3) == Some(x3)
    ensures ValidValues([c0, c1, c2, c3]) == [x0, x1, x2, x3]
  {
    ValuesOfThree(c1, c2, c3, x1, x2, x3);
    ValuesCons(c0, [c1, c2, c3], x0, [x1, x2, x3]);
    ConsFour(c0, c1, c2, c3);
    ConsFour(x0, x1, x2, x3);
  }

  lemma ValuesOfFive(c0: Cell, c1: Cell, c2: Cell, c3: Cell, c4: Cell,
                     x0: real, x1: real, x2: real, x3: real, x4: real)
    requires ToNumber(c0) == Some(x0) && ToNumber(c1) == Some(x1) && ToNumber(c2) == Some(x2)
    requires ToNumber(c3) == Some(x3) && ToNumber(c4) == Some(x4)
    ensures ValidValues([c0, c1, c2, c3, c4]) == [x0, x1, x2, x3, x4]
  {
    ValuesOfFour(c1, c2, c3, c4, x1, x2, x3, x4);
    ValuesCons(c0, [c1, c2, c3, c4], x0, [x1, x2, x3, x4]);
    ConsFive(c0, c1, c2, c3, c4);
    ConsFive(x0, x1, x2, x3, x4);
  }

  lemma SumOfThree(a: real, b: real, c: real)
    ensures Sum([a, b, c]) == a + b + c
  {
    assert [c][1..] == [];
    assert Sum([c]) == c;
    assert [b, c][1..] == [c];
    assert Sum([b, c]) == b + c;
    assert [a, b, c][1..] == [b, c];
  }

  lemma SumOfFour(a: real, b: real, c: real, d: real)
    ensures Sum([a, b, c, d]) == a + b + c + d
  {
    assert [a, b, c, d][1..] == [b, c, d];
    SumOfThree(b, c, d);
  }

  lemma SumOfFive(a: real, b: real, c: real, d: real, e: real)
    ensures Sum([a, b, c, d, e]) == a + b + c + d + e
  {
    assert [a, b, c, d, e][1..] == [b, c, d, e];
    SumOfFour(b, c, d, e);
  }

  // ---------------------------------------------------------------------
  // find_total (tda_test.py:66-79)

  lemma FindTotalValid()
    ensures FindTotal(Flat([Num(1500.5), Num(1900.25), Text("2000.00"), Num(1750.75)])) == Some(7151.5)
  {
    Coerced2000();
    ValuesOfFour(Num(1500.5), Num(1900.25), Text("2000.00"), Num(1750.75), 1500.5, 1900.25, 2000.0, 1750.75);
    SumOfFour(1500.5, 1900.25, 2000.0, 1750.75);
  }

  lemma FindTotalSingle()
    ensures FindTotal(Flat([Num(1500.0)])) == Some(1500.0)
  {
    TotalOfCell(Num(1500.0));
  }

  lemma FindTotalRejectsShape()
    ensures FindTotal(Grid([[Num(1500.5)]])) == None
    ensures FindTotal(Str("")) == None
  {
  }

  lemma FindTotalSkipsInvalid()
    ensures FindTotal(Flat([Num(1500.5), Num(1900.25), Text("invalid"), Num(1750.75)])) == Some(5151.5)
  {
    InvalidIsNotNumber();
    SkipInvalid([Num(1500.5), Num(1900.25)], Text("invalid"), [Num(1750.75)]);
    AroundThirdOfFour(Num(1500.5), Num(1900.25), Text("invalid"), Num(1750.75));
    ValuesOfThree(Num(1500.5), Num(1900.25), Num(1750.75), 1500.5, 1900.25, 1750.75);
    SumOfThree(1500.5, 1900.25, 1750.75);
  }

  // ---------------------------------------------------------------------
  // calculate_mean (tda_test.py:82-95)

  lemma QuotientOf(t: real, n: real, m: real)
    requires n > 0.0 && t == m * n
    ensures t / n == m
  {
  }

  /** The mean of a list whose valid values, and their total, are known. */
  lemma MeanOf(cells: seq<Cell>, xs: seq<real>, total: real, mean: real)
    requires ValidValues(cells) == xs && |xs| > 0 && Sum(xs) == total
    requires total == mean * |xs| as real
    ensures CalculateMean(Flat(cells)) == Some(mean)
  {
    QuotientOf(total, |xs| as real, mean);
  }

  /** The valid values of the first mean test list, and their total. */
  lemma MeanValidValues()
    ensures ValidValues([Num(20.5), Num(21.0), Text("22.5"), Num(19.8), Num(20.2)])
         == [20.5, 21.0, 22.5, 19.8, 20.2]
    ensures Sum([20.5, 21.0, 22.5, 19.8, 20.2]) == 104.0
  {
    Coerced22Point5();
    ValuesOfFive(Num(20.5), Num(21.0), Text("22.5"), Num(19.8), Num(20.2), 20.5, 21.0, 22.5, 19.8, 20.2);
    SumOfFive(20.5, 21.0, 22.5, 19.8, 20.2);
  }

  lemma CalculateMeanValid()
    ensures CalculateMean(Flat([Num(20.5), Num(21.0), Text("22.5"), Num(19.8), Num(20.2)])) == Some(20.8)
  {
    MeanValidValues();
    MeanOf([Num(20.5), Num(21.0), Text("22.5"), Num(19.8), Num(20.2)], [20.5, 21.0, 22.5, 19.8, 20.2], 104.0, 20.8);
  }

  lemma CalculateMeanSingle()
    ensures CalculateMean(Flat([Text("-5.5")])) == Some(-5.5)
  {
    CoercedMinus5Point5();
    ValuesOfOne(Text("-5.5"), -5.5);
    assert Sum([-5.5]) == -5.5 by {
      assert [-5.5][1..] == [];
    }
    MeanOf([Text("-5.5")], [-5.5], -5.5, -5.5);
  }

  lemma CalculateMeanRejects()
    ensures CalculateMean(Flat([])) == None
    ensures CalculateMean(Grid([[Num(20.5), Num(21.0)]])) == None
  {
  }

  /** The valid values of the mean test list with an invalid entry, and their total. */
  lemma MeanSkipsInvalidValues()
    ensures ValidValues([Num(20.5), Num(21.0), Text("invalid"), Num(19.8), Num(20.2)]) == [20.5, 21.0, 19.8, 20.2]
    ensures Sum([20.5, 21.0, 19.8, 20.2]) == 81.5
  {
    InvalidIsNotNumber();
    SkipInvalid([Num(20.5), Num(21.0)], Text("invalid"), [Num(19.8), Num(20.2)]);
    AroundThird(Num(20.5), Num(21.0), Text("invalid"), Num(19.8), Num(20.2));
    ValuesOfFour(Num(20.5), Num(21.0), Num(19.8), Num(20.2), 20.5, 21.0, 19.8, 20.2);
    SumOfFour(20.5, 21.0, 19.8, 20.2);
  }

  lemma CalculateMeanSkipsInvalid()
    ensures CalculateMean(Flat([Num(20.5), Num(21.0), Text("invalid"), Num(19.8), Num(20.2)])) == Some(20.375)
  {
    MeanSkipsInvalidValues();
    MeanOf([Num(20.5), Num(21.0), Text("invalid"), Num(19.8), Num(20.2)], [20.5, 21.0, 19.8, 20.2], 81.5, 20.375);
  }

  // ---------------------------------------------------------------------
  // calculate_median (tda_test.py:98-123)

  lemma MedianOddSorted()
    ensures CalculateMedian(Flat([Num(10.0), Num(20.0), Num(30.0), Num(40.0), Num(50.0)])) == Some(30.0)
  {
    ValuesOfFive(Num(10.0), Num(20.0), Num(30.0), Num(40.0), Num(50.0), 10.0, 20.0, 30.0, 40.0, 50.0);
    assert Sorted([10.0, 20.0, 30.0, 40.0, 50.0]) && Middle([10.0, 20.0, 30.0, 40.0, 50.0]) == 30.0;
    MedianOfSorted([Num(10.0), Num(20.0), Num(30.0), Num(40.0), Num(50.0)], [10.0, 20.0, 30.0, 40.0, 50.0], 30.0);
  }

  lemma MedianEvenSorted()
    ensures CalculateMedian(Flat([Num(10.0), Num(20.0), Num(30.0), Num(40.0)])) == Some(25.0)
  {
    ValuesOfFour(Num(10.0), Num(20.0), Num(30.0), Num(40.0), 10.0, 20.0, 30.0, 40.0);
    assert Sorted([10.0, 20.0, 30.0, 40.0]) && Middle([10.0, 20.0, 30.0, 40.0]) == 25.0;
    MedianOfSorted([Num(10.0), Num(20.0), Num(30.0), Num(40.0)], [10.0, 20.0, 30.0, 40.0], 25.0);
  }

  lemma MedianSingleText()
    ensures CalculateMedian(Flat([Text("19")])) == Some(19.0)
  {
    Coerced19();
    ValuesOfOne(Text("19"), 19.0);
    MedianOfSorted([Text("19")], [19.0], 19.0);
  }

  /** The median of five sorted values 1..5, used for the unsorted test below. */
  lemma MedianOneToFive()
    ensures CalculateMedian(Flat([Num(1.0), Num(2.0), Num(3.0), Num(4.0), Num(5.0)])) == Some(3.0)
  {
    ValuesOfFive(Num(1.0), Num(2.0), Num(3.0), Num(4.0), Num(5.0), 1.0, 2.0, 3.0, 4.0, 5.0);
    assert Sorted([1.0, 2.0, 3.0, 4.0, 5.0]) && Middle([1.0, 2.0, 3.0, 4.0, 5.0]) == 3.0;
    MedianOfSorted([Num(1.0), Num(2.0), Num(3.0), Num(4.0), Num(5.0)], [1.0, 2.0, 3.0, 4.0, 5.0], 3.0);
  }

  lemma MedianOddUnsorted()
    ensures CalculateMedian(Flat([Num(3.0), Num(5.0), Num(1.0), Num(4.0), Num(2.0)])) == Some(3.0)
  {
    assert multiset([Num(3.0), Num(5.0), Num(1.0), Num(4.0), Num(2.0)])
        == multiset([Num(1.0), Num(2.0), Num(3.0), Num(4.0), Num(5.0)]);
    MedianPermutation([Num(3.0), Num(5.0), Num(1.0), Num(4.0), Num(2.0)], [Num(1.0), Num(2.0), Num(3.0), Num(4.0), Num(5.0)]);
    MedianOneToFive();
  }

  /** The median of four sorted values 1..4, used for the unsorted test below. */
  lemma MedianOneToFour()
    ensures CalculateMedian(Flat([Num(1.0), Num(2.0), Num(3.0), Num(4.0)])) == Some(2.5)
  {
    ValuesOfFour(Num(1.0), Num(2.0), Num(3.0), Num(4.0), 1.0, 2.0, 3.0, 4.0);
    assert Sorted([1.0, 2.0, 3.0, 4.0]) && Middle([1.0, 2.0, 3.0, 4.0]) == 2.5;
    MedianOfSorted([Num(1.0), Num(2.0), Num(3.0), Num(4.0)], [1.0, 2.0, 3.0, 4.0], 2.5);
  }

  lemma MedianEvenUnsorted()
    ensures CalculateMedian(Flat([Num(4.0), Num(1.0), Num(2.0), Num(3.0)])) == Some(2.5)
  {
    assert multiset([Num(4.0), Num(1.0), Num(2.0), Num(3.0)]) == multiset([Num(1.0), Num(2.0), Num(3.0), Num(4.0)]);
    MedianPermutation([Num(4.0), Num(1.0), Num(2.0), Num(3.0)], [Num(1.0), Num(2.0), Num(3.0), Num(4.0)]);
    MedianOneToFour();
  }

  /** The median of the valid entries of the last test, in ascending order. */
  lemma MedianFiveToHundred()
    ensures CalculateMedian(Flat([Num(5.0), Num(10.0), Num(50.0), Num(100.0)])) == Some(30.0)
  {
    ValuesOfFour(Num(5.0), Num(10.0), Num(50.0), Num(100.0), 5.0, 10.0, 50.0, 100.0);
    assert Sorted([5.0, 10.0, 50.0, 100.0]) && Middle([5.0, 10.0, 50.0, 100.0]) == 30.0;
    MedianOfSorted([Num(5.0), Num(10.0), Num(50.0), Num(100.0)], [5.0, 10.0, 50.0, 100.0], 30.0);
  }

  lemma MedianOfValidFour()
    ensures CalculateMedian(Flat([Num(100.0), Num(5.0), Num(50.0), Num(10.0)])) == Some(30.0)
  {
    assert multiset([Num(100.0), Num(5.0), Num(50.0), Num(10.0)]) == multiset([Num(5.0), Num(10.0), Num(50.0), Num(100.0)]);
    MedianPermutation([Num(100.0), Num(5.0), Num(50.0), Num(10.0)], [Num(5.0), Num(10.0), Num(50.0), Num(100.0)]);
    MedianFiveToHundred();
  }

  lemma MedianUnsortedWithInvalid()
    ensures CalculateMedian(Flat([Num(100.0), Text("invalid"), Num(5.0), Num(50.0), Num(10.0)])) == Some(30.0)
  {
    InvalidIsNotNumber();
    MedianSkipsInvalid([Num(100.0)], Text("invalid"), [Num(5.0), Num(50.0), Num(10.0)]);
    AroundSecond(Num(100.0), Text("invalid"), Num(5.0), Num(50.0), Num(10.0));
    MedianOfValidFour();
  }

  lemma MedianEmpty()
    ensures CalculateMedian(Flat([])) == None
  {
  }

  // ---------------------------------------------------------------------
  // convert_to_number (tda_test.py:125-145)

  lemma CountOfThree(a: seq<Cell>, b: seq<Cell>, c: seq<Cell>, col: int)
    ensures CountConvertible([a, b, c], col)
         == (if Convertible(a, col) then 1 else 0) + (if Convertible(b, col) then 1 else 0)
          + (if Convertible(c, col) then 1 else 0)
  {
    assert [a][..0] == [];
    assert CountConvertible([a], col) == (if Convertible(a, col) then 1 else 0);
    assert [a, b][..1] == [a];
    assert CountConvertible([a, b], col)
        == (if Convertible(a, col) then 1 else 0) + (if Convertible(b, col) then 1 else 0);
    assert [a, b, c][..2] == [a, b];
  }

  /** The sales table of the test has two numeric sales cells. */
  lemma SalesCount()
    ensures CountConvertible([[Text("region"), Text("sales"), Text("units")],
                              [Text("North"), Text("1000"), Text("50")],
                              [Text("South"), Text("1500"), Text("75")]], 1) == 2
  {
    NotNumberByFirstChar("sales");
    Coerced1000();
    Coerced1500();
    CountOfThree([Text("region"), Text("sales"), Text("units")],
                 [Text("North"), Text("1000"), Text("50")],
                 [Text("South"), Text("1500"), Text("75")], 1);
  }

  /** Converting its sales column rewrites those two cells with their values. */
  lemma SalesConverted()
    ensures ConvertRow([Text("North"), Text("1000"), Text("50")], 1) == [Text("North"), Num(1000.0), Text("50")]
    ensures ConvertRow([Text("South"), Text("1500"), Text("75")], 1) == [Text("South"), Num(1500.0), Text("75")]
  {
    Coerced1000();
    Coerced1500();
    assert Coerce(Text("1000")) == Num(1000.0);
    assert Coerce(Text("1500")) == Num(1500.0);
  }

  /** In the mixed table only the "1500" cell is a number. */
  lemma MixedColumn()
    ensures CountConvertible([[Text("region"), Text("sales")],
                              [Text("North"), Text("invalid")],
                              [Text("South"), Text("1500")]], 1) == 1
  {
    NotNumberByFirstChar("sales");
    InvalidIsNotNumber();
    Coerced1500();
    CountOfThree([Text("region"), Text("sales")], [Text("North"), Text("invalid")], [Text("South"), Text("1500")], 1);
  }

  /** A fresh mutable row holding `cells`. */
  method NewRow(cells: seq<Cell>) returns (row: array<Cell>)
    ensures fresh(row) && row[..] == cells
  {
    row := new Cell[|cells|](i requires 0 <= i < |cells| => cells[i]);
  }

  method ConvertToNumberExample()
  {
    var rows := [[Text("region"), Text("sales"), Text("units")],
                 [Text("North"), Text("1000"), Text("50")],
                 [Text("South"), Text("1500"), Text("75")]];
    var header := NewRow(rows[0]);
    var north := NewRow(rows[1]);
    var south := NewRow(rows[2]);
    var table := [header, north, south];
    assert Snapshot(table) == rows;
    var count := ConvertToNumber(table, 1);
    assert count == 2 by { SalesCount(); }
    assert north[..] == [Text("North"), Num(1000.0), Text("50")] by {
      assert north[..] == ConvertRow(rows[1], 1);
      SalesConverted();
    }
    assert south[..] == [Text("South"), Num(1500.0), Text("75")] by {
      assert south[..] == ConvertRow(rows[2], 1);
      SalesConverted();
    }
  }

  method ConvertToNumberSkipsInvalid()
  {
    var rows := [[Text("region"), Text("sales")], [Text("North"), Text("invalid")], [Text("South"), Text("1500")]];
    var header := NewRow(rows[0]);
    var north := NewRow(rows[1]);
    var south := NewRow(rows[2]);
    var table := [header, north, south];
    assert Snapshot(table) == rows;
    var count := ConvertToNumber(table, 1);
    assert count == 1 by { MixedColumn(); }
  }

  // ---------------------------------------------------------------------
  // flatten (tda_test.py:148-170)

  lemma FlattenSingleColumn()
    ensures Flatten(Grid([[Num(20.5)], [Num(21.0)], [Num(22.5)], [Num(19.8)], [Num(20.2)]]))
         == Some([Num(20.5), Num(21.0), Num(22.5), Num(19.8), Num(20.2)])
  {
    FlattenColumn([Num(20.5), Num(21.0), Num(22.5), Num(19.8), Num(20.2)]);
    assert Column([Num(20.5), Num(21.0), Num(22.5), Num(19.8), Num(20.2)])
        == [[Num(20.5)], [Num(21.0)], [Num(22.5)], [Num(19.8)], [Num(20.2)]];
  }

  lemma FlattenRejects()
    ensures Flatten(Flat([Num(20.5), Num(21.0), Num(22.5)])) == None
    ensures Flatten(Grid([[Num(23.5), Num(45.0)], [Num(25.1), Num(42.0)]])) == None
  {
    var rows: Table := [[Num(23.5), Num(45.0)], [Num(25.1), Num(42.0)]];
    assert |rows[0]| == 2;
  }

  // ---------------------------------------------------------------------
  // create_slice (tda_test.py:173-200)

  lemma KeptRowsOfFour(a: seq<Cell>, b: seq<Cell>, c: seq<Cell>, d: seq<Cell>, filterCol: int, value: Cell)
    ensures KeptRows([a, b, c, d], filterCol, value)
         == KeptRows([a], filterCol, value) + KeptRows([b], filterCol, value)
          + KeptRows([c], filterCol, value) + KeptRows([d], filterCol, value)
  {
    assert [a, b, c, d] == [a] + [b] + [c] + [d];
    KeptRowsAppend([a] + [b] + [c], [d], filterCol, value);
    KeptRowsAppend([a] + [b], [c], filterCol, value);
    KeptRowsAppend([a], [b], filterCol, value);
  }

  /** The slice of a table whose kept rows are known: their projections, in order. */
  lemma SliceOfKept(table: seq<seq<Cell>>, filterCol: int, value: Cell, cols: seq<int>, kept: seq<seq<Cell>>, out: seq<seq<Cell>>)
    requires KeptRows(table, filterCol, value) == kept
    requires AllInRange(kept, cols)
    requires |out| == |kept| && forall j | 0 <= j < |kept| :: out[j] == Project(kept[j], cols)
    ensures CreateSlice(table, filterCol, value, Some(cols)) == Some(out)
  {
    var r := seq(|kept|, j requires 0 <= j < |kept| => Project(kept[j], cols));
    assert CreateSlice(table, filterCol, value, Some(cols)) == Some(r);
    assert r == out;
  }

  /** Projecting a four-cell row onto columns 1 and 3. */
  lemma ProjectOneThree(row: seq<Cell>)
    requires |row| == 4
    ensures InRange(row, [1, 3]) && Project(row, [1, 3]) == [row[1], row[3]]
  {
  }

  lemma CreateSliceByRegion()
    ensures CreateSlice([
        [Text("date"), Text("region"), Text("product"), Text("sales")],
        [Text("2024-01"), Text("North"), Text("Laptop"), Num(1000.0)],
        [Text("2024-01"), Text("South"), Text("Phone"), Num(1500.0)],
        [Text("2024-01"), Text("North"), Text("Tablet"), Num(2000.0)]],
        1, Text("North"), Some([1, 3]))
      == Some([[Text("North"), Num(1000.0)], [Text("North"), Num(2000.0)]])
  {
    var r0 := [Text("date"), Text("region"), Text("product"), Text("sales")];
    var r1 := [Text("2024-01"), Text("North"), Text("Laptop"), Num(1000.0)];
    var r2 := [Text("2024-01"), Text("South"), Text("Phone"), Num(1500.0)];
    var r3 := [Text("2024-01"), Text("North"), Text("Tablet"), Num(2000.0)];
    KeptRowsOfFour(r0, r1, r2, r3, 1, Text("North"));
    KeptRowsOfRow(r0, 1, Text("North"));
    KeptRowsOfRow(r1, 1, Text("North"));
    KeptRowsOfRow(r2, 1, Text("North"));
    KeptRowsOfRow(r3, 1, Text("North"));
    assert !Keeps(r0, 1, Text("North")) && Keeps(r1, 1, Text("North"));
    assert !Keeps(r2, 1, Text("North")) && Keeps(r3, 1, Text("North"));
    assert KeptRows([r0, r1, r2, r3], 1, Text("North")) == [r1, r3];
    ProjectOneThree(r1);
    ProjectOneThree(r3);
    SliceOfKept([r0, r1, r2, r3], 1, Text("North"), [1, 3], [r1, r3],
                [[Text("North"), Num(1000.0)], [Text("North"), Num(2000.0)]]);
  }

  lemma CreateSliceWildcard()
    ensures CreateSlice([
        [Text("date"), Text("region"), Text("product"), Text("sales")],
        [Text("2024-01"), Text("North"), Text("Laptop"), Num(1000.0)],
        [Text("2024-01"), Text("South"), Text("Phone"), Num(1500.0)]],
        0, Wildcard, Some([1, 3]))
      == Some([[Text("region"), Text("sales")], [Text("North"), Num(1000.0)], [Text("South"), Num(1500.0)]])
  {
    var r0 := [Text("date"), Text("region"), Text("product"), Text("sales")];
    var r1 := [Text("2024-01"), Text("North"), Text("Laptop"), Num(1000.0)];
    var r2 := [Text("2024-01"), Text("South"), Text("Phone"), Num(1500.0)];
    WildcardKeepsAll([r0, r1, r2], 0);
    ProjectOneThree(r0);
    ProjectOneThree(r1);
    ProjectOneThree(r2);
    SliceOfKept([r0, r1, r2], 0, Wildcard, [1, 3], [r0, r1, r2],
                [[Text("region"), Text("sales")], [Text("North"), Num(1000.0)], [Text("South"), Num(1500.0)]]);
  }
}
