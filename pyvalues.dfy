/** The Python 2 values that reach the query builder (player ids, limit
    entries, seat settings, detail filters, flags) and the three renderings
    the code applies to them: truth value, `str()` and `repr()`. */
module PyValues {
  import opened Text

  /** A Python 2 value: None, a bool, an `int` or `long` (a long's repr
      carries a trailing `L`), or a byte string. */
  datatype PyValue = PyNone | PyBool(b: bool) | PyInt(i: int, isLong: bool) | PyStr(s: string)

  /** Python truthiness, as used by `if v:`. */
  predicate Truthy(v: PyValue)
  {
    match v
    case PyNone => false
    case PyBool(b) => b
    case PyInt(i, _) => i != 0
    case PyStr(s) => s != []
  }

  /** `v == True`: in Python the integer 1 compares equal to True. */
  predicate EqualsTrue(v: PyValue)
  {
    v == PyBool(true) || (v.PyInt? && v.i == 1)
  }

  /** Python 2 `str(v)`. */
  function Str(v: PyValue): string
  {
    match v
    case PyNone => "None"
    case PyBool(b) => if b then "True" else "False"
    case PyInt(i, _) => Decimal(i)
    case PyStr(s) => s
  }

  /** Python 2 `repr(v)`; strings are shown in single quotes. */
  function Repr(v: PyValue): string
  {
    match v
    case PyNone => "None"
    case PyBool(b) => if b then "True" else "False"
    case PyInt(i, isLong) => Decimal(i) + (if isLong then "L" else "")
    case PyStr(s) => "'" + s + "'"
  }

  function Reprs(vs: seq<PyValue>): seq<string>
  {
    seq(|vs|, k requires 0 <= k < |vs| => Repr(vs[k]))
  }

  /** `str(tuple(vs))`: a one-element tuple keeps its trailing comma. */
  function TupleRepr(vs: seq<PyValue>): string
  {
    if |vs| == 1 then "(" + Repr(vs[0]) + ",)" else "(" + Join(Reprs(vs), ", ") + ")"
  }

  /** `str(vs)` for a list. */
  function ListRepr(vs: seq<PyValue>): string
  {
    "[" + Join(Reprs(vs), ", ") + "]"
  }

  /** The SQL list the query builder makes from a Python list:
      `str(tuple(vs)).replace("L", "").replace(",)", ")")`. */
  function SqlTuple(vs: seq<PyValue>): string
  {
    Replace(Replace(TupleRepr(vs), "L", ""), ",)", ")")
  }

  /** Values whose SQL literal is meant to be their repr without a long
      suffix: integers, and strings of digits. */
  predicate Plain(v: PyValue)
  {
    v.PyInt? || (v.PyStr? && IsDigits(v.s))
  }

  /** The SQL literal a plain value stands for. */
  function Literal(v: PyValue): string
    requires Plain(v)
  {
    if v.PyInt? then Decimal(v.i) else "'" + v.s + "'"
  }

  function Literals(vs: seq<PyValue>): seq<string>
    requires forall k :: 0 <= k < |vs| ==> Plain(vs[k])
  {
    seq(|vs|, k requires 0 <= k < |vs| => Literal(vs[k]))
  }

  /** Reference rendering of an SQL `in` list: the literals, comma-separated,
      in parentheses, with no trailing comma whatever the length. */
  function InList(vs: seq<PyValue>): string
    requires forall k :: 0 <= k < |vs| ==> Plain(vs[k])
  {
    "(" + Join(Literals(vs), ", ") + ")"
  }

  lemma LiteralChars(v: PyValue, c: char)
    requires Plain(v) && !IsDigitChar(c) && c != '-' && c != '\''
    ensures c !in Literal(v)
  {
    if v.PyInt? {
      DecimalChars(v.i, c);
    } else {
      DigitsLack(v.s, c);
    }
  }

  /** An SQL list holds only digits, signs, quotes, commas, blanks and its
      parentheses. */
  lemma InListLacks(vs: seq<PyValue>, c: char)
    requires forall k :: 0 <= k < |vs| ==> Plain(vs[k])
    requires !IsDigitChar(c) && c !in "-', ()"
    ensures c !in InList(vs)
  {
    forall k | 0 <= k < |vs| ensures c !in Literals(vs)[k] {
      LiteralChars(vs[k], c);
    }
    JoinLacks(Literals(vs), ", ", c);
  }

  /** Dropping every `L` from a plain value's repr leaves its literal. */
  lemma StripLong(v: PyValue)
    requires Plain(v)
    ensures Replace(Repr(v), "L", "") == Literal(v)
  {
    LiteralChars(v, 'L');
    if v.PyInt? {
      var tail := if v.isLong then "L" else "";
      assert Repr(v) == Literal(v) + tail;
      ReplaceSkip(Literal(v), tail, "L", "");
      if v.isLong {
        ReplaceHead("", "L", "");
        assert "L" + "" == tail;
      }
    } else {
      assert Repr(v) == Literal(v) + "";
      ReplaceSkip(Literal(v), "", "L", "");
    }
  }

  lemma StripLongs(vs: seq<PyValue>)
    requires forall k :: 0 <= k < |vs| ==> Plain(vs[k])
    ensures Replace(Join(Reprs(vs), ", "), "L", "") == Join(Literals(vs), ", ")
  {
    var rs := Reprs(vs);
    ReplaceCharJoin(rs, ", ", 'L', "");
    forall k | 0 <= k < |vs|
      ensures Replace(rs[k], "L", "") == Literals(vs)[k]
    {
      StripLong(vs[k]);
    }
    assert seq(|rs|, k requires 0 <= k < |rs| => Replace(rs[k], ['L'], "")) == Literals(vs);
  }

  /** The separator `", "` cannot start `",)"`. */
  lemma ReplaceCommaSpace(rest: string)
    ensures Replace(", " + rest, ",)", ")") == ", " + Replace(rest, ",)", ")")
  {
    var s := ", " + rest;
    assert s[1] == ' ';
    assert !(",)" <= s);
    assert s[1..] == " " + rest;
    ReplaceSkip(" ", rest, ",)", ")");
  }

  /** `",)"` never occurs in a comma-separated list of comma-free parts,
      so collapsing it leaves such a list alone. */
  lemma {:induction false} NoCommaParen(parts: seq<string>)
    requires |parts| > 0
    requires forall k :: 0 <= k < |parts| ==> ',' !in parts[k]
    ensures Replace(Join(parts, ", ") + ")", ",)", ")") == Join(parts, ", ") + ")"
    decreases |parts|
  {
    ReplaceSkip(")", "", ",)", ")");
    assert ")" + "" == ")";
    if |parts| == 1 {
      ReplaceSkip(parts[0], ")", ",)", ")");
    } else {
      var tail := parts[1..];
      var rest := Join(tail, ", ") + ")";
      NoCommaParen(tail);
      assert Join(parts, ", ") + ")" == parts[0] + (", " + rest);
      ReplaceSkip(parts[0], ", " + rest, ",)", ")");
      ReplaceCommaSpace(rest);
    }
  }

  /** The query builder's list rendering is the intended SQL `in` list: the
      long suffixes are gone and a single element has no trailing comma. */
  lemma SqlTupleIsInList(vs: seq<PyValue>)
    requires |vs| > 0
    requires forall k :: 0 <= k < |vs| ==> Plain(vs[k])
    ensures SqlTuple(vs) == InList(vs)
  {
    if |vs| == 1 {
      SingleTuple(vs[0]);
      assert Literals(vs) == [Literal(vs[0])];
    } else {
      LongerTuple(vs);
    }
  }

  /** A one-element tuple loses its trailing comma. */
  lemma SingleTuple(v: PyValue)
    requires Plain(v)
    ensures SqlTuple([v]) == "(" + Literal(v) + ")"
  {
    var lit := Literal(v);
    LiteralChars(v, ',');
    StripLong(v);
    ReplaceSkip("(", "", "L", "");
    assert "(" + "" == "(";
    ReplaceCharConcat("(" + Repr(v), ",)", 'L', "");
    ReplaceCharConcat("(", Repr(v), 'L', "");
    ReplaceSkip(",)", "", "L", "");
    assert ",)" + "" == ",)";
    assert Replace(TupleRepr([v]), "L", "") == "(" + lit + ",)";
    ReplaceSkip("(" + lit, ",)", ",)", ")");
    ReplaceHead("", ",)", ")");
  }

  /** A longer tuple has no trailing comma to remove. */
  lemma LongerTuple(vs: seq<PyValue>)
    requires |vs| > 1
    requires forall k :: 0 <= k < |vs| ==> Plain(vs[k])
    ensures SqlTuple(vs) == InList(vs)
  {
    var lits := Literals(vs);
    forall k | 0 <= k < |lits| ensures ',' !in lits[k] {
      LiteralChars(vs[k], ',');
    }
    StripLongTuple(vs);
    ParenSkip(lits);
  }

  /** The parenthesised literals hold no `,)`. */
  lemma ParenSkip(lits: seq<string>)
    requires |lits| > 0
    requires forall k :: 0 <= k < |lits| ==> ',' !in lits[k]
    ensures Replace("(" + (Join(lits, ", ") + ")"), ",)", ")") == "(" + Join(lits, ", ") + ")"
  {
    NoCommaParen(lits);
    ReplaceSkip("(", Join(lits, ", ") + ")", ",)", ")");
  }

  /** Removing `L` from a longer tuple's repr strips every long suffix. */
  lemma StripLongTuple(vs: seq<PyValue>)
    requires |vs| > 1
    requires forall k :: 0 <= k < |vs| ==> Plain(vs[k])
    ensures Replace(TupleRepr(vs), "L", "") == "(" + (Join(Literals(vs), ", ") + ")")
  {
    StripLongs(vs);
    ReplaceSkip("(", "", "L", "");
    assert "(" + "" == "(";
    var body := Join(Reprs(vs), ", ");
    assert TupleRepr(vs) == "(" + body + ")";
    ReplaceCharConcat("(" + body, ")", 'L', "");
    ReplaceCharConcat("(", body, 'L', "");
    ReplaceSkip(")", "", "L", "");
    assert ")" + "" == ")";
  }



  /** A one-element list loses its trailing comma: `[5L]` gives `(5)`. */
  lemma SingleIdCollapses()
    ensures SqlTuple([PyInt(5, true)]) == "(5)"
  {
    SqlTupleIsInList([PyInt(5, true)]);
    assert DigitChar(5) == '5';
    assert Literals([PyInt(5, true)]) == ["5"];
  }

  /** `str(x).isdigit()` holds exactly for non-negative integers and for
      strings of digits; in particular only plain values pass it. */
  lemma DigitStr(v: PyValue)
    ensures IsDigits(Str(v)) <==> (v.PyInt? && v.i >= 0) || (v.PyStr? && IsDigits(v.s))
  {
    match v
    case PyNone =>
      assert Str(v)[0] == 'N';
    case PyBool(b) =>
      assert Str(v)[0] == (if b then 'T' else 'F');
    case PyInt(i, _) =>
      if i < 0 {
        assert Str(v)[0] == '-';
      }
    case PyStr(_) =>
  }

  /** A string entry whose text contains "show". */
  predicate ShowStr(v: PyValue)
  {
    v.PyStr? && Contains(v.s, "show")
  }

  /** `"show" in repr(v)` holds exactly for strings that contain "show". */
  lemma ShowInRepr(v: PyValue)
    ensures Contains(Repr(v), "show") <==> ShowStr(v)
  {
    match v
    case PyNone =>
      ContainsSkip("None", "", "show");
      assert "None" + "" == "None";
    case PyBool(b) =>
      ContainsSkip("True", "", "show");
      assert "True" + "" == "True";
      ContainsSkip("Fal", "se", "show");
      assert "Fal" + "se" == "False";
      assert !Contains("se", "show");
    case PyInt(i, isLong) =>
      DecimalChars(i, 's');
      ContainsSkip(Decimal(i) + (if isLong then "L" else ""), "", "show");
      assert Repr(v) + "" == Repr(v);
    case PyStr(s) =>
      ContainsSkip("'", s + "'", "show");
      ContainsSplit(s, "'", "show");
      assert !Contains("'", "show");
      assert Repr(v) == "'" + (s + "'");
  }

  lemma {:induction false} ShowInJoin(vs: seq<PyValue>)
    ensures Contains(Join(Reprs(vs), ", "), "show") <==> exists k :: 0 <= k < |vs| && ShowStr(vs[k])
    decreases |vs|
  {
    if |vs| == 0 {
      assert !Contains("", "show");
    } else if |vs| == 1 {
      ShowInRepr(vs[0]);
    } else {
      var tail := vs[1..];
      var rest := Join(Reprs(tail), ", ");
      ReprsJoin(vs);
      ShowInRepr(vs[0]);
      ShowInJoin(tail);
      ShowAcrossSeparator(Repr(vs[0]), rest);
      ShowSomewhere(vs);
    }
  }

  /** The rendering of two or more entries: the first, a separator, the
      rest. */
  lemma ReprsJoin(vs: seq<PyValue>)
    requires |vs| >= 2
    ensures Join(Reprs(vs), ", ") == Repr(vs[0]) + (", " + Join(Reprs(vs[1..]), ", "))
  {
    var rs := Reprs(vs);
    assert rs[1..] == Reprs(vs[1..]);
  }

  /** The separator cannot supply "show". */
  lemma ShowAcrossSeparator(first: string, rest: string)
    ensures Contains(first + (", " + rest), "show") <==> Contains(first, "show") || Contains(rest, "show")
  {
    ContainsSplit(first, ", " + rest, "show");
    ContainsSkip(", ", rest, "show");
  }

  /** Some entry shows iff the first does or some later one does. */
  lemma ShowSomewhere(vs: seq<PyValue>)
    requires |vs| > 0
    ensures (exists k :: 0 <= k < |vs| && ShowStr(vs[k]))
        <==> ShowStr(vs[0]) || exists k :: 0 <= k < |vs| - 1 && ShowStr(vs[1..][k])
  {
    var tail := vs[1..];
    if exists k :: 0 <= k < |vs| && ShowStr(vs[k]) {
      var k :| 0 <= k < |vs| && ShowStr(vs[k]);
      if k > 0 {
        assert ShowStr(tail[k - 1]);
      }
    }
    if exists k :: 0 <= k < |tail| && ShowStr(tail[k]) {
      var k :| 0 <= k < |tail| && ShowStr(tail[k]);
      assert ShowStr(vs[k + 1]);
    }
  }

  /** `"show" in str(vs)` holds exactly when some string entry of the list
      contains "show": no number, bool or separator can supply it. */
  lemma ShowInListRepr(vs: seq<PyValue>)
    ensures Contains(ListRepr(vs), "show") <==> exists k :: 0 <= k < |vs| && ShowStr(vs[k])
  {
    var body := Join(Reprs(vs), ", ");
    ShowInJoin(vs);
    ContainsSkip("[", body + "]", "show");
    ContainsSplit(body, "]", "show");
    assert !Contains("]", "show");
    assert ListRepr(vs) == "[" + (body + "]");
  }
}
