/** The texts of operators, orders and option names, spelled out. */
module ListQueryTexts {
  import opened Rows
  import opened Json
  import opened ListQuery
  import opened ListQueryGrammar
  import JsonRoundTrip

  /** Columns are named by the letters of the two alphabets, and by no other character. */
  lemma LettersAre(c: char)
    ensures IsAlpha(c) <==> 65 <= c as int <= 90 || 97 <= c as int <= 122
  {
  }

  // ------------------------------------------------------------- operators

  lemma TextOf(sym: Symbol, text: string, operand: string, rest: string, v: Json)
    requires SymbolText(sym) == text && ParseValue(operand) == Ok(rest, v)
    ensures ParseFilterOperator("[" + (text + ("]=" + operand))) ==
      if MakeOp(sym, v).Some? then Some((rest, MakeOp(sym, v).value)) else None
  {
    OperandFollows(sym, operand, rest, v);
  }

  /** Each operator's own text, in its brackets before any operand, is that operation on the
      operand's value. */
  lemma ComparisonsRead(operand: string, rest: string, v: Json)
    requires ParseValue(operand) == Ok(rest, v)
    ensures ParseFilterOperator("[" + ("=" + ("]=" + operand))) == Some((rest, Eq(v)))
    ensures ParseFilterOperator("[" + ("!=" + ("]=" + operand))) == Some((rest, Neq(v)))
    ensures ParseFilterOperator("[" + (">" + ("]=" + operand))) == Some((rest, Gt(v)))
    ensures ParseFilterOperator("[" + (">=" + ("]=" + operand))) == Some((rest, Ge(v)))
    ensures ParseFilterOperator("[" + ("<" + ("]=" + operand))) == Some((rest, Lt(v)))
    ensures ParseFilterOperator("[" + ("<=" + ("]=" + operand))) == Some((rest, Le(v)))
  {
    hide ParseFilterOperator, ParseValue;
    TextOf(SymEq, "=", operand, rest, v);
    TextOf(SymNeq, "!=", operand, rest, v);
    TextOf(SymGt, ">", operand, rest, v);
    TextOf(SymGe, ">=", operand, rest, v);
    TextOf(SymLt, "<", operand, rest, v);
    TextOf(SymLe, "<=", operand, rest, v);
  }

  /** Membership needs an array. */
  lemma MembershipReads(operand: string, rest: string, v: Json)
    requires ParseValue(operand) == Ok(rest, v)
    ensures ParseFilterOperator("[" + ("in" + ("]=" + operand))) == if v.Array? then Some((rest, In(v.items))) else None
    ensures ParseFilterOperator("[" + ("!in" + ("]=" + operand))) == if v.Array? then Some((rest, NotIn(v.items))) else None
  {
    hide ParseFilterOperator, ParseValue;
    TextOf(SymIn, "in", operand, rest, v);
    TextOf(SymNotIn, "!in", operand, rest, v);
  }

  // ------------------------------------------------------- whole options

  lemma FilterOption(name: string, columnOf: ColumnOf, c: Column, s: string, rest: string, op: FilterOp)
    requires AllAlpha(name) && columnOf(name) == Some(c) && ParseFilterOperator(s) == Some((rest, op))
    ensures ParseOption("filter" + ("[" + (name + ("]" + s))), columnOf) == Some((rest, FilterItem(Filter(c, op))))
  {
    hide ParseFilterOperator, ParseColumn;
    ColumnReads(name, columnOf, s);
    WordReads("filter", "[" + (name + ("]" + s)));
  }

  /** A filter on a known column by each of the comparisons. */
  lemma FiltersRead(name: string, columnOf: ColumnOf, c: Column, operand: string, rest: string, v: Json)
    requires AllAlpha(name) && columnOf(name) == Some(c) && ParseValue(operand) == Ok(rest, v)
    ensures ReadsAs(name, columnOf, "[" + ("=" + ("]=" + operand)), rest, c, Eq(v))
    ensures ReadsAs(name, columnOf, "[" + ("!=" + ("]=" + operand)), rest, c, Neq(v))
    ensures ReadsAs(name, columnOf, "[" + (">" + ("]=" + operand)), rest, c, Gt(v))
    ensures ReadsAs(name, columnOf, "[" + (">=" + ("]=" + operand)), rest, c, Ge(v))
    ensures ReadsAs(name, columnOf, "[" + ("<" + ("]=" + operand)), rest, c, Lt(v))
    ensures ReadsAs(name, columnOf, "[" + ("<=" + ("]=" + operand)), rest, c, Le(v))
    ensures v.Array? ==> ReadsAs(name, columnOf, "[" + ("in" + ("]=" + operand)), rest, c, In(v.items))
    ensures v.Array? ==> ReadsAs(name, columnOf, "[" + ("!in" + ("]=" + operand)), rest, c, NotIn(v.items))
  {
    hide ParseFilterOperator, ParseValue, ParseOption;
    ComparisonsRead(operand, rest, v);
    MembershipReads(operand, rest, v);
    FilterOption(name, columnOf, c, "[" + ("=" + ("]=" + operand)), rest, Eq(v));
    FilterOption(name, columnOf, c, "[" + ("!=" + ("]=" + operand)), rest, Neq(v));
    FilterOption(name, columnOf, c, "[" + (">" + ("]=" + operand)), rest, Gt(v));
    FilterOption(name, columnOf, c, "[" + (">=" + ("]=" + operand)), rest, Ge(v));
    FilterOption(name, columnOf, c, "[" + ("<" + ("]=" + operand)), rest, Lt(v));
    FilterOption(name, columnOf, c, "[" + ("<=" + ("]=" + operand)), rest, Le(v));
    if v.Array? {
      FilterOption(name, columnOf, c, "[" + ("in" + ("]=" + operand)), rest, In(v.items));
      FilterOption(name, columnOf, c, "[" + ("!in" + ("]=" + operand)), rest, NotIn(v.items));
    }
  }

  /** The option `filter[name]` followed by `s` is a filter by `op`, with `rest` left. */
  predicate ReadsAs(name: string, columnOf: ColumnOf, s: string, rest: string, c: Column, op: FilterOp) {
    ParseOption("filter" + ("[" + (name + ("]" + s))), columnOf) == Some((rest, FilterItem(Filter(c, op))))
  }

  lemma SortsRead(name: string, columnOf: ColumnOf, c: Column, rest: string)
    requires AllAlpha(name) && columnOf(name) == Some(c)
    ensures ParseOption("sort" + ("[" + (name + ("]" + ("=" + ("asc" + rest))))), columnOf) == Some((rest, SortItem(Sort(c, Asc))))
    ensures ParseOption("sort" + ("[" + (name + ("]" + ("=" + ("desc" + rest))))), columnOf) == Some((rest, SortItem(Sort(c, Desc))))
  {
    hide ParseOption;
    SortReads(SortDoc(name, Asc), columnOf, rest);
    SortReads(SortDoc(name, Desc), columnOf, rest);
  }

  // ---------------------------------------------------------------- numbers

  lemma DecimalDigit(t: string, c: char, u: string)
    requires AllDigits(t) && c in "0123456789" && u == t + [c]
    ensures AllDigits(u) && DecimalValue(u) == 10 * DecimalValue(t) + (c as int - 48)
  {
    assert u[..|t|] == t;
    assert IsDigit(c);
  }

  lemma EmptyDecimal()
    ensures AllDigits("") && DecimalValue("") == 0
  {
  }

  lemma PrefixText()
    ensures AllDigits("42949") && DecimalValue("42949") == 42949
  {
    hide AllDigits, DecimalValue;
    EmptyDecimal();
    DecimalDigit("", '4', "4");
    DecimalDigit("4", '2', "42");
    DecimalDigit("42", '9', "429");
    DecimalDigit("429", '4', "4294");
    DecimalDigit("4294", '9', "42949");
  }

  /** The greatest number a page or size can be, and the first that is refused. */
  lemma LimitTexts()
    ensures AllDigits("4294967295") && DecimalValue("4294967295") == 4294967295
    ensures AllDigits("4294967296") && DecimalValue("4294967296") == 4294967296
  {
    hide AllDigits, DecimalValue;
    PrefixText();
    DecimalDigit("42949", '6', "429496");
    DecimalDigit("429496", '7', "4294967");
    DecimalDigit("4294967", '2', "42949672");
    DecimalDigit("42949672", '9', "429496729");
    DecimalDigit("429496729", '5', "4294967295");
    DecimalDigit("429496729", '6', "4294967296");
  }

  /** A page or size is any digits below 2 to the 32nd, and nothing else. */
  lemma PaginationReads(digits: string, rest: string, columnOf: ColumnOf)
    requires digits != "" && AllDigits(digits) && (rest == "" || !IsDigit(rest[0]))
    ensures ParseOption("pagination" + ("[page]=" + (digits + rest)), columnOf) ==
      if DecimalValue(digits) < 4294967296 then Some((rest, PageItem(DecimalValue(digits)))) else None
    ensures ParseOption("pagination" + ("[size]=" + (digits + rest)), columnOf) ==
      if DecimalValue(digits) < 4294967296 then Some((rest, SizeItem(DecimalValue(digits)))) else None
  {
    hide ParseOption, ParsePagination;
    PaginationWord("[page]=" + (digits + rest), columnOf);
    PaginationWord("[size]=" + (digits + rest), columnOf);
    if DecimalValue(digits) < 4294967296 {
      DigitsRead("[page]=", digits, rest);
      DigitsRead("[size]=", digits, rest);
    } else {
      DigitsRefused("[page]=", digits, rest);
      DigitsRefused("[size]=", digits, rest);
    }
  }

  lemma DigitsRefused(name: string, digits: string, t: string)
    requires digits != "" && AllDigits(digits) && DecimalValue(digits) >= 4294967296 && (t == "" || !IsDigit(t[0]))
    requires name == "[page]=" || name == "[size]="
    ensures ParsePagination(name + (digits + t)) == None
  {
    var s := name + (digits + t);
    WordReads(name, digits + t);
    assert s[1] == name[1];
    JsonRoundTrip.CountDigits(digits, t);
    assert (digits + t)[..|digits|] == digits;
  }
}
