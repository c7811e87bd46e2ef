/** The cell values of the player statistics table
    (pyfpdb/GuiPlayerStats.py, `addTable`): the blank-cell rule, the "game"
    label with its stakes in cents, and the rows built from a query result. */
module StatsTable {
  import opened Text

  /** A value fetched from the database. It is kept apart from
      `PyValues.PyValue`, the values of the filter panel: a fetched value can
      be a float, while the query builder needs booleans and the `long` flag
      that a fetched value never carries. */
  datatype Field = Null | Int(i: int) | Real(r: real) | Text(s: string)

  /** Python truthiness of a fetched value. */
  predicate Truthy(v: Field)
  {
    match v
    case Null => false
    case Int(i) => i != 0
    case Real(r) => r != 0.0
    case Text(s) => s != []
  }

  /** The marker the statistics query uses for "no value": `v == -999`. */
  predicate Sentinel(v: Field)
  {
    (v.Int? && v.i == -999) || (v.Real? && v.r == -999.0)
  }

  /** `fmt % v`. `%s` on text and `%s` or `%d` on an integer are rendered
      here; the floating point formats are left to `numeric`. */
  function Format(fmt: string, v: Field, numeric: (string, Field) -> string): string
  {
    if fmt == "%s" && v.Text? then v.s
    else if (fmt == "%s" || fmt == "%d") && v.Int? then Decimal(v.i)
    else numeric(fmt, v)
  }

  /** The text of one cell: a single space for a falsy value or the -999
      marker, otherwise the value in its column's format. */
  function CellText(fmt: string, v: Field, numeric: (string, Field) -> string): (r: string)
    ensures !Truthy(v) || Sentinel(v) ==> r == " "
    ensures Truthy(v) && !Sentinel(v) ==> r == Format(fmt, v, numeric)
  {
    if Truthy(v) && !Sentinel(v) then Format(fmt, v, numeric) else " "
  }

  /** A text cell is blank exactly when the text is empty or is itself a
      single space. */
  lemma BlankTextCell(s: string, numeric: (string, Field) -> string)
    ensures CellText("%s", Text(s), numeric) == " " <==> s == "" || s == " "
  {
  }

  /** A count cell is blank exactly for zero and for the -999 marker: a
      decimal rendering is never a space. */
  lemma BlankCountCell(i: int, numeric: (string, Field) -> string)
    ensures CellText("%d", Int(i), numeric) == " " <==> i == 0 || i == -999
  {
    if i != 0 && i != -999 {
      DecimalChars(i, ' ');
      assert Decimal(i)[0] in Decimal(i);
    }
  }

  // ---------------------------------------------------------------------
  // Python's str.title() on ASCII text.
  // ---------------------------------------------------------------------

  predicate IsUpper(c: char) { 'A' <= c <= 'Z' }
  predicate IsLower(c: char) { 'a' <= c <= 'z' }
  predicate IsCased(c: char) { IsUpper(c) || IsLower(c) }

  function Upper(c: char): char
  {
    if IsLower(c) then (c as int - 32) as char else c
  }

  function Lower(c: char): char
  {
    if IsUpper(c) then (c as int + 32) as char else c
  }

  /** `title()` after a character that was (`afterCased`) or was not a
      letter: a letter following a non-letter is upper-cased, any other
      letter lower-cased. */
  function TitleFrom(s: string, afterCased: bool): (r: string)
    ensures |r| == |s|
    decreases |s|
  {
    if s == [] then []
    else
      var c := s[0];
      var d := if !IsCased(c) then c else if afterCased then Lower(c) else Upper(c);
      [d] + TitleFrom(s[1..], IsCased(c))
  }

  function Title(s: string): string
  {
    TitleFrom(s, false)
  }

  lemma {:induction false} TitleFromShape(s: string, afterCased: bool, k: nat)
    requires k < |s|
    ensures IsCased(TitleFrom(s, afterCased)[k]) == IsCased(s[k])
    ensures IsCased(s[k]) ==>
      TitleFrom(s, afterCased)[k] == (if (if k == 0 then afterCased else IsCased(s[k - 1])) then Lower(s[k]) else Upper(s[k]))
    ensures !IsCased(s[k]) ==> TitleFrom(s, afterCased)[k] == s[k]
    decreases k
  {
    if k > 0 {
      TitleFromShape(s[1..], IsCased(s[0]), k - 1);
    }
  }

  /** Reference description of `title()`: each letter is upper-cased when
      it starts a word (nothing or a non-letter before it) and lower-cased
      otherwise; every other character is kept. */
  lemma TitleShape(s: string, k: nat)
    requires k < |s|
    ensures IsCased(s[k]) && (k == 0 || !IsCased(s[k - 1])) ==> Title(s)[k] == Upper(s[k])
    ensures IsCased(s[k]) && k > 0 && IsCased(s[k - 1]) ==> Title(s)[k] == Lower(s[k])
    ensures !IsCased(s[k]) ==> Title(s)[k] == s[k]
  {
    TitleFromShape(s, false, k);
  }

  lemma {:induction false} TitleFromIdempotent(s: string, afterCased: bool)
    ensures TitleFrom(TitleFrom(s, afterCased), afterCased) == TitleFrom(s, afterCased)
    decreases |s|
  {
    if s != [] {
      var t := TitleFrom(s, afterCased);
      assert t[1..] == TitleFrom(s[1..], IsCased(s[0]));
      TitleFromShape(s, afterCased, 0);
      TitleFromIdempotent(s[1..], IsCased(s[0]));
    }
  }

  /** Title-casing a category twice changes nothing more. */
  lemma TitleIdempotent(s: string)
    ensures Title(Title(s)) == Title(s)
  {
    TitleFromIdempotent(s, false);
  }

  // ---------------------------------------------------------------------
  // Stakes in cents.
  // ---------------------------------------------------------------------

  /** `int(c / 100.0)`: division truncated toward zero. */
  function TruncHundreds(c: int): int
  {
    if c >= 0 then c / 100 else -((-c) / 100)
  }

  /** The source's test `100 * int(c / 100.0) != c` is the integer test
      `c % 100 != 0`. */
  lemma FractionTest(c: int)
    ensures 100 * TruncHundreds(c) != c <==> c % 100 != 0
  {
    if c < 0 {
      var n := -c;
      assert n == 100 * (n / 100) + n % 100;
      if n % 100 == 0 {
        assert c == 100 * (-(n / 100));
        assert c % 100 == 0;
      } else {
        assert c == 100 * (-(n / 100) - 1) + (100 - n % 100);
        assert c % 100 == 100 - n % 100;
      }
    }
  }

  function TwoDigits(n: nat): (r: string)
    requires n < 100
    ensures |r| == 2 && IsDigits(r)
  {
    [DigitChar(n / 10), DigitChar(n % 10)]
  }

  /** `'%.2f' % (n / 100.0)` when `n` has a cents part, `'%.0f'` otherwise. */
  function Cents(n: nat): (r: string)
  {
    if 100 * TruncHundreds(n) != n then NatDigits(n / 100) + "." + TwoDigits(n % 100)
    else NatDigits(n / 100)
  }

  /** A stake printed as in the game label. */
  function Stake(c: int): string
  {
    if c < 0 then "-" + Cents(-c) else Cents(c)
  }

  /** The stakes part of the label: the upper stake follows only when it
      differs from the lower one. */
  function StakeRange(minbb: int, maxbb: int): string
  {
    Stake(minbb) + (if minbb != maxbb then " - $" + Stake(maxbb) else "")
  }

  /** The "game" label of a result row. */
  function GameLabel(limittype: string, category: string, name: string, minbb: int, maxbb: int): string
  {
    limittype + " " + Title(category) + " " + name + " $" + StakeRange(minbb, maxbb)
  }

  /** Reading a printed amount back: whole units, or units and exactly two
      digits of cents, with an optional minus sign. */
  function ParseUnsigned(s: string): Option<int>
  {
    if IsDigits(s) then Some(100 * ParseNat(s))
    else if |s| >= 4 && s[|s| - 3] == '.' && IsDigits(s[..|s| - 3]) && IsDigits(s[|s| - 2..]) then
      Some(100 * ParseNat(s[..|s| - 3]) + ParseNat(s[|s| - 2..]))
    else None
  }

  function ParseStake(s: string): Option<int>
  {
    if |s| > 0 && s[0] == '-' then
      match ParseUnsigned(s[1..])
      case None => None
      case Some(n) => Some(-n)
    else ParseUnsigned(s)
  }

  /** Index of the first occurrence of `c`, or `|s|` when there is none. */
  function Find(s: string, c: char): (r: nat)
    ensures r <= |s| && c !in s[..r]
    ensures r < |s| ==> s[r] == c
    decreases |s|
  {
    if s == [] || s[0] == c then 0
    else
      var r := 1 + Find(s[1..], c);
      assert s[..r] == [s[0]] + s[1..][..r - 1];
      r
  }

  /** Reading a stakes part back: one amount stands for equal stakes. */
  function ParseRange(s: string): Option<(int, int)>
  {
    var k := Find(s, ' ');
    if k == |s| then
      match ParseStake(s)
      case None => None
      case Some(a) => Some((a, a))
    else if !(" - $" <= s[k..]) then None
    else
      match (ParseStake(s[..k]), ParseStake(s[k + 4..]))
      case (Some(a), Some(b)) => Some((a, b))
      case _ => None
  }

  lemma TwoDigitsValue(n: nat)
    requires n < 100
    ensures ParseNat(TwoDigits(n)) == n
  {
    var r := TwoDigits(n);
    assert r[..|r| - 1] == [r[0]];
    assert [r[0]][..0] == [];
    assert r[0] as int - '0' as int == n / 10;
    assert r[1] as int - '0' as int == n % 10;
    assert ParseNat([r[0]]) == n / 10;
    assert ParseNat(r) == 10 * ParseNat([r[0]]) + n % 10;
  }

  /** A printed amount has two decimals exactly when it is not a whole
      number of units. */
  lemma CentsDecimals(n: nat)
    ensures '.' in Cents(n) <==> n % 100 != 0
  {
    FractionTest(n);
    if n % 100 == 0 {
      DigitsLack(NatDigits(n / 100), '.');
    } else {
      assert Cents(n)[|NatDigits(n / 100)|] == '.';
    }
  }

  lemma StakeDecimals(c: int)
    ensures '.' in Stake(c) <==> c % 100 != 0
  {
    FractionTest(c);
    FractionTest(-c);
    if c < 0 {
      CentsDecimals(-c);
      assert c % 100 != 0 <==> (-c) % 100 != 0;
    } else {
      CentsDecimals(c);
    }
  }

  lemma CentsRoundTrip(n: nat)
    ensures ParseUnsigned(Cents(n)) == Some(n)
    ensures |Cents(n)| > 0 && Cents(n)[0] != '-' && ' ' !in Cents(n)
  {
    FractionTest(n);
    var whole := NatDigits(n / 100);
    ParseNatDigits(n / 100);
    DigitsLack(whole, ' ');
    if n % 100 == 0 {
      assert n == 100 * (n / 100);
    } else {
      var s := Cents(n);
      var frac := TwoDigits(n % 100);
      assert s == whole + "." + frac;
      assert s[|s| - 3] == '.';
      assert !IsDigitChar(s[|s| - 3]);
      assert s[..|s| - 3] == whole;
      assert s[|s| - 2..] == frac;
      TwoDigitsValue(n % 100);
      DigitsLack(frac, ' ');
      assert s[0] == whole[0];
    }
  }

  /** Printing a stake and reading it back gives the stake. */
  lemma StakeRoundTrip(c: int)
    ensures ParseStake(Stake(c)) == Some(c)
    ensures |Stake(c)| > 0 && ' ' !in Stake(c)
  {
    if c < 0 {
      CentsRoundTrip(-c);
      NegatedParse(Cents(-c), -c);
    } else {
      CentsRoundTrip(c);
    }
  }

  /** A minus sign in front of an unsigned amount negates it. */
  lemma NegatedParse(u: string, n: int)
    requires ParseUnsigned(u) == Some(n) && ' ' !in u
    ensures ParseStake("-" + u) == Some(-n) && ' ' !in "-" + u
  {
    assert ("-" + u)[1..] == u;
  }

  /** The stakes part reads back as both stakes: the upper stake is shown
      exactly when the two differ, and each amount keeps its cents. */
  lemma StakeRangeRoundTrip(minbb: int, maxbb: int)
    ensures ParseRange(StakeRange(minbb, maxbb)) == Some((minbb, maxbb))
  {
    StakeRoundTrip(minbb);
    var lo := Stake(minbb);
    var s := StakeRange(minbb, maxbb);
    if minbb == maxbb {
      assert s == lo;
    } else {
      StakeRoundTrip(maxbb);
      var hi := Stake(maxbb);
      assert s == lo + (" - $" + hi);
      RangeParse(lo, hi, minbb, maxbb);
    }
  }

  /** Two amounts joined by " - $" read back as the pair, because the
      first amount holds no space. */
  lemma RangeParse(lo: string, hi: string, a: int, b: int)
    requires ParseStake(lo) == Some(a) && ParseStake(hi) == Some(b) && ' ' !in lo
    ensures ParseRange(lo + (" - $" + hi)) == Some((a, b))
  {
    var s := lo + (" - $" + hi);
    assert s[|lo|] == ' ';
    assert s[..|lo|] == lo;
    var k := Find(s, ' ');
    assert k == |lo|;
    assert s[k..] == " - $" + hi;
    assert s[k + 4..] == hi;
  }

  /** The stakes part is the lower stake alone exactly when the stakes are
      equal. */
  lemma UpperStakeShown(minbb: int, maxbb: int)
    ensures StakeRange(minbb, maxbb) == Stake(minbb) <==> minbb == maxbb
  {
    if minbb != maxbb {
      assert |StakeRange(minbb, maxbb)| > |Stake(minbb)|;
    }
  }

  /** The label is the row's limit type, title-cased category and name,
      then the stakes part, from which both stakes read back. */
  lemma GameLabelStakes(limittype: string, category: string, name: string, minbb: int, maxbb: int)
    ensures var prefix := limittype + " " + Title(category) + " " + name + " $";
      && prefix <= GameLabel(limittype, category, name, minbb, maxbb)
      && ParseRange(GameLabel(limittype, category, name, minbb, maxbb)[|prefix|..]) == Some((minbb, maxbb))
  {
    var prefix := limittype + " " + Title(category) + " " + name + " $";
    var shown := GameLabel(limittype, category, name, minbb, maxbb);
    assert shown == prefix + StakeRange(minbb, maxbb);
    assert shown[|prefix|..] == StakeRange(minbb, maxbb);
    StakeRangeRoundTrip(minbb, maxbb);
  }

  /** 550 cents print as 5.50 and 500 cents as 5. */
  lemma StakeExamples()
    ensures Stake(550) == "5.50"
    ensures Stake(500) == "5"
  {
    FractionTest(550);
    FractionTest(500);
    assert DigitChar(5) == '5' && DigitChar(0) == '0';
    assert NatDigits(5) == "5";
  }

  // ---------------------------------------------------------------------
  // The column table and the rows.
  // ---------------------------------------------------------------------

  /** One configured column: result column name, shown or not, heading,
      horizontal alignment and format. */
  datatype Column = Column(alias: string, show: bool, heading: string, xalign: real, format: string)

  /** The page's column configuration. */
  const Columns: seq<Column> := [
    Column("game", true, "Game", 0.0, "%s"),
    Column("hand", false, "Hand", 0.0, "%s"),
    Column("n", true, "Hds", 1.0, "%d"),
    Column("avgseats", true, "Seats", 1.0, "%3.1f"),
    Column("vpip", true, "VPIP", 1.0, "%3.1f"),
    Column("pfr", true, "PFR", 1.0, "%3.1f"),
    Column("pf3", true, "PF3", 1.0, "%3.1f"),
    Column("steals", true, "Steals", 1.0, "%3.1f"),
    Column("saw_f", true, "Saw_F", 1.0, "%3.1f"),
    Column("sawsd", true, "SawSD", 1.0, "%3.1f"),
    Column("wtsdwsf", true, "WtSDwsF", 1.0, "%3.1f"),
    Column("wmsd", true, "W$SD", 1.0, "%3.1f"),
    Column("flafq", true, "FlAFq", 1.0, "%3.1f"),
    Column("tuafq", true, "TuAFq", 1.0, "%3.1f"),
    Column("rvafq", true, "RvAFq", 1.0, "%3.1f"),
    Column("pofafq", false, "PoFAFq", 1.0, "%3.1f"),
    Column("net", true, "Net($)", 1.0, "%6.2f"),
    Column("bbper100", true, "BB/100", 1.0, "%4.2f"),
    Column("rake", true, "Rake($)", 1.0, "%6.2f"),
    Column("variance", true, "Variance", 1.0, "%5.2f")
  ]

  /** `[x for x in columns if x[colshow]]`. */
  function Shown(columns: seq<Column>): (r: seq<Column>)
    ensures forall k :: 0 <= k < |r| ==> r[k].show && r[k] in columns
    ensures forall c :: c in columns && c.show ==> c in r
    decreases |columns|
  {
    if columns == [] then []
    else if columns[0].show then [columns[0]] + Shown(columns[1..])
    else Shown(columns[1..])
  }

  /** Filtering keeps the columns' order: it distributes over
      concatenation. */
  lemma {:induction false} ShownAppend(a: seq<Column>, b: seq<Column>)
    ensures Shown(a + b) == Shown(a) + Shown(b)
    decreases |a|
  {
    if a == [] {
      assert a + b == b;
    } else {
      assert (a + b)[0] == a[0] && (a + b)[1..] == a[1..] + b;
      ShownAppend(a[1..], b);
    }
  }

  /** What stopped the table: a column name missing from the result
      (`ValueError` from `list.index`), or a value of the wrong type for the
      label. */
  datatype TableError = NoColumn(name: string) | BadValue(name: string)

  datatype Result<T> = Ok(value: T) | Err(error: TableError)

  /** `xs.index(x)`: the first position of `x`. */
  function IndexOf(xs: seq<string>, x: string): (r: nat)
    requires x in xs
    ensures r < |xs| && xs[r] == x && x !in xs[..r]
    decreases |xs|
  {
    if xs[0] == x then 0
    else
      var r := 1 + IndexOf(xs[1..], x);
      assert xs[..r] == [xs[0]] + xs[1..][..r - 1];
      r
  }

  /** The result has every column the label is made of. */
  predicate LabelColumns(colnames: seq<string>)
  {
    "minbigblind" in colnames && "maxbigblind" in colnames && "limittype" in colnames
    && "category" in colnames && "name" in colnames
  }

  /** Those columns hold text and whole numbers of cents. */
  predicate LabelTyped(colnames: seq<string>, row: seq<Field>)
    requires |row| == |colnames| && LabelColumns(colnames)
  {
    row[IndexOf(colnames, "limittype")].Text? && row[IndexOf(colnames, "category")].Text?
    && row[IndexOf(colnames, "name")].Text?
    && row[IndexOf(colnames, "minbigblind")].Int? && row[IndexOf(colnames, "maxbigblind")].Int?
  }

  /** The "game" label of a row whose result has no "game" column, failing
      as the source does: at the first missing column, or at a value that
      is not text where text is concatenated, or not a whole number of cents
      where a stake is expected. */
  function GameValue(colnames: seq<string>, row: seq<Field>): (r: Result<Field>)
    requires |row| == |colnames|
    ensures r.Ok? ==> r.value.Text? && r.value.s != []
    ensures r.Ok? <==> LabelColumns(colnames) && LabelTyped(colnames, row)
    ensures r.Ok? ==> r.value == Text(GameLabel(row[IndexOf(colnames, "limittype")].s,
                                                row[IndexOf(colnames, "category")].s,
                                                row[IndexOf(colnames, "name")].s,
                                                row[IndexOf(colnames, "minbigblind")].i,
                                                row[IndexOf(colnames, "maxbigblind")].i))
    ensures r.Err? && r.error.NoColumn? ==> r.error.name !in colnames
  {
    if "minbigblind" !in colnames then Err(NoColumn("minbigblind"))
    else if "maxbigblind" !in colnames then Err(NoColumn("maxbigblind"))
    else if "limittype" !in colnames then Err(NoColumn("limittype"))
    else if !row[IndexOf(colnames, "limittype")].Text? then Err(BadValue("limittype"))
    else if "category" !in colnames then Err(NoColumn("category"))
    else if !row[IndexOf(colnames, "category")].Text? then Err(BadValue("category"))
    else if "name" !in colnames then Err(NoColumn("name"))
    else if !row[IndexOf(colnames, "name")].Text? then Err(BadValue("name"))
    else if !row[IndexOf(colnames, "minbigblind")].Int? then Err(BadValue("minbigblind"))
    else if !row[IndexOf(colnames, "maxbigblind")].Int? then Err(BadValue("maxbigblind"))
    else
      Ok(Text(GameLabel(row[IndexOf(colnames, "limittype")].s, row[IndexOf(colnames, "category")].s,
                        row[IndexOf(colnames, "name")].s, row[IndexOf(colnames, "minbigblind")].i,
                        row[IndexOf(colnames, "maxbigblind")].i)))
  }

  /** What one shown column contributes to a row: the result's value of that
      name, or for "game" the hole-card name or the label, or nothing for
      any other name the result lacks (`continue`). */
  datatype CellValue = Value(v: Field) | Skip | Failed(e: TableError)

  function CellOf(column: Column, colnames: seq<string>, row: seq<Field>, hg: nat, holecards: bool,
                  startCards: Field -> string): CellValue
    requires |row| == |colnames| && hg < |row|
  {
    if column.alias in colnames then Value(row[IndexOf(colnames, column.alias)])
    else if column.alias != "game" then Skip
    else if holecards then Value(Text(startCards(row[hg])))
    else
      match GameValue(colnames, row)
      case Ok(v) => Value(v)
      case Err(e) => Failed(e)
  }

  /** The cells of one row, left to right; the first failing column stops
      the table. */
  function RowCells(columns: seq<Column>, colnames: seq<string>, row: seq<Field>, hg: nat, holecards: bool,
                    startCards: Field -> string, numeric: (string, Field) -> string): (r: Result<seq<string>>)
    requires |row| == |colnames| && hg < |row|
    ensures r.Ok? ==> |r.value| <= |columns|
    decreases |columns|
  {
    if columns == [] then Ok([])
    else
      match CellOf(columns[0], colnames, row, hg, holecards, startCards)
      case Failed(e) => Err(e)
      case Skip => RowCells(columns[1..], colnames, row, hg, holecards, startCards, numeric)
      case Value(v) =>
        match RowCells(columns[1..], colnames, row, hg, holecards, startCards, numeric)
        case Err(e) => Err(e)
        case Ok(cells) => Ok([CellText(columns[0].format, v, numeric)] + cells)
  }

  /** Every result row has one value per result column. */
  predicate Rectangular(colnames: seq<string>, result: seq<seq<Field>>)
  {
    forall k :: 0 <= k < |result| ==> |result[k]| == |colnames|
  }

  function RowsFrom(columns: seq<Column>, colnames: seq<string>, result: seq<seq<Field>>, hg: nat, holecards: bool,
                    startCards: Field -> string, numeric: (string, Field) -> string): (r: Result<seq<seq<string>>>)
    requires Rectangular(colnames, result) && hg < |colnames|
    ensures r.Ok? ==> |r.value| == |result|
    decreases |result|
  {
    if result == [] then Ok([])
    else
      match RowCells(columns, colnames, result[0], hg, holecards, startCards, numeric)
      case Err(e) => Err(e)
      case Ok(cells) =>
        match RowsFrom(columns, colnames, result[1..], hg, holecards, startCards, numeric)
        case Err(e) => Err(e)
        case Ok(rows) => Ok([cells] + rows)
  }

  /** The table `addTable` fills: one row of cells per result row over the
      shown columns. The position of "hgametypeid" is looked up before any
      row, so a result without it fails even when it has no rows. */
  function Table(columns: seq<Column>, colnames: seq<string>, result: seq<seq<Field>>, holecards: bool,
                 startCards: Field -> string, numeric: (string, Field) -> string): (r: Result<seq<seq<string>>>)
    requires Rectangular(colnames, result)
    ensures "hgametypeid" !in colnames ==> r == Err(NoColumn("hgametypeid"))
    ensures r.Ok? ==> |r.value| == |result|
  {
    if "hgametypeid" !in colnames then Err(NoColumn("hgametypeid"))
    else RowsFrom(Shown(columns), colnames, result, IndexOf(colnames, "hgametypeid"), holecards, startCards, numeric)
  }

  // ---------------------------------------------------------------------
  // Properties of the rows.
  // ---------------------------------------------------------------------

  /** Reference description of a row whose result holds every shown
      column: one cell per column, in order, each the blank-cell rule
      applied to that column's value. */
  lemma {:induction false} RowOfKnownColumns(columns: seq<Column>, colnames: seq<string>, row: seq<Field>, hg: nat,
                                            holecards: bool, startCards: Field -> string,
                                            numeric: (string, Field) -> string)
    requires |row| == |colnames| && hg < |row|
    requires forall k :: 0 <= k < |columns| ==> columns[k].alias in colnames
    ensures RowCells(columns, colnames, row, hg, holecards, startCards, numeric)
         == Ok(seq(|columns|, k requires 0 <= k < |columns| =>
                     CellText(columns[k].format, row[IndexOf(colnames, columns[k].alias)], numeric)))
    decreases |columns|
  {
    var whole := seq(|columns|, k requires 0 <= k < |columns| =>
                   CellText(columns[k].format, row[IndexOf(colnames, columns[k].alias)], numeric));
    if columns != [] {
      var tail := columns[1..];
      RowOfKnownColumns(tail, colnames, row, hg, holecards, startCards, numeric);
      assert whole[1..] == seq(|tail|, k requires 0 <= k < |tail| =>
                             CellText(tail[k].format, row[IndexOf(colnames, tail[k].alias)], numeric));
      assert whole == [whole[0]] + whole[1..];
    } else {
      assert whole == [];
    }
  }

  /** A column the result lacks, other than "game", adds no cell. */
  lemma {:induction false} RowCellsAppend(columns: seq<Column>, c: Column, colnames: seq<string>, row: seq<Field>,
                                         hg: nat, holecards: bool, startCards: Field -> string,
                                         numeric: (string, Field) -> string)
    requires |row| == |colnames| && hg < |row|
    ensures var before := RowCells(columns, colnames, row, hg, holecards, startCards, numeric);
            var after := RowCells(columns + [c], colnames, row, hg, holecards, startCards, numeric);
            && (before.Err? ==> after == before)
            && (before.Ok? ==> after == match CellOf(c, colnames, row, hg, holecards, startCards)
                                        case Skip => before
                                        case Failed(e) => Err(e)
                                        case Value(v) => Ok(before.value + [CellText(c.format, v, numeric)]))
    decreases |columns|
  {
    if columns == [] {
      assert columns + [c] == [c];
      assert [c][1..] == [];
      match CellOf(c, colnames, row, hg, holecards, startCards)
      case Failed(e) =>
      case Skip =>
      case Value(w) =>
        var y := CellText(c.format, w, numeric);
        assert [y] + [] == [] + [y];
    } else {
      var rest := columns[1..];
      assert (columns + [c])[0] == columns[0];
      assert (columns + [c])[1..] == rest + [c];
      RowCellsAppend(rest, c, colnames, row, hg, holecards, startCards, numeric);
      match CellOf(columns[0], colnames, row, hg, holecards, startCards)
      case Failed(e) =>
      case Skip =>
      case Value(v) =>
        var x := CellText(columns[0].format, v, numeric);
        var tailBefore := RowCells(rest, colnames, row, hg, holecards, startCards, numeric);
        if tailBefore.Ok? {
          match CellOf(c, colnames, row, hg, holecards, startCards)
          case Failed(e) =>
          case Skip =>
          case Value(w) =>
            var y := CellText(c.format, w, numeric);
            assert [x] + (tailBefore.value + [y]) == ([x] + tailBefore.value) + [y];
        }
    }
  }

  /** Appending a result row appends its cells to the table. */
  lemma {:induction false} RowsFromAppend(columns: seq<Column>, colnames: seq<string>, result: seq<seq<Field>>,
                                         row: seq<Field>, hg: nat, holecards: bool, startCards: Field -> string,
                                         numeric: (string, Field) -> string)
    requires Rectangular(colnames, result) && |row| == |colnames| && hg < |colnames|
    ensures Rectangular(colnames, result + [row])
    ensures var before := RowsFrom(columns, colnames, result, hg, holecards, startCards, numeric);
            var after := RowsFrom(columns, colnames, result + [row], hg, holecards, startCards, numeric);
            var cells := RowCells(columns, colnames, row, hg, holecards, startCards, numeric);
            && (before.Err? ==> after == before)
            && (before.Ok? && cells.Err? ==> after == Err(cells.error))
            && (before.Ok? && cells.Ok? ==> after == Ok(before.value + [cells.value]))
    decreases |result|
  {
    if result == [] {
      assert result + [row] == [row];
      assert [row][1..] == [];
      var cells := RowCells(columns, colnames, row, hg, holecards, startCards, numeric);
      if cells.Ok? {
        assert [cells.value] + [] == [] + [cells.value];
      }
    } else {
      var rest := result[1..];
      assert (result + [row])[0] == result[0];
      assert (result + [row])[1..] == rest + [row];
      RowsFromAppend(columns, colnames, rest, row, hg, holecards, startCards, numeric);
      var first := RowCells(columns, colnames, result[0], hg, holecards, startCards, numeric);
      var tailBefore := RowsFrom(columns, colnames, rest, hg, holecards, startCards, numeric);
      var cells := RowCells(columns, colnames, row, hg, holecards, startCards, numeric);
      if first.Ok? && tailBefore.Ok? && cells.Ok? {
        assert [first.value] + (tailBefore.value + [cells.value]) == ([first.value] + tailBefore.value) + [cells.value];
      }
    }
  }


  /** Once a row has failed, later columns change nothing. */
  lemma {:induction false} RowCellsFailed(a: seq<Column>, b: seq<Column>, colnames: seq<string>, row: seq<Field>,
                                         hg: nat, holecards: bool, startCards: Field -> string,
                                         numeric: (string, Field) -> string)
    requires |row| == |colnames| && hg < |row|
    requires RowCells(a, colnames, row, hg, holecards, startCards, numeric).Err?
    ensures RowCells(a + b, colnames, row, hg, holecards, startCards, numeric)
         == RowCells(a, colnames, row, hg, holecards, startCards, numeric)
    decreases |a|
  {
    assert (a + b)[0] == a[0];
    assert (a + b)[1..] == a[1..] + b;
    if RowCells(a[1..], colnames, row, hg, holecards, startCards, numeric).Err? {
      RowCellsFailed(a[1..], b, colnames, row, hg, holecards, startCards, numeric);
    }
  }

  /** Once the table has failed, later rows change nothing. */
  lemma {:induction false} RowsFromFailed(columns: seq<Column>, colnames: seq<string>, a: seq<seq<Field>>,
                                         b: seq<seq<Field>>, hg: nat, holecards: bool,
                                         startCards: Field -> string, numeric: (string, Field) -> string)
    requires Rectangular(colnames, a) && Rectangular(colnames, b) && hg < |colnames|
    requires RowsFrom(columns, colnames, a, hg, holecards, startCards, numeric).Err?
    ensures Rectangular(colnames, a + b)
    ensures RowsFrom(columns, colnames, a + b, hg, holecards, startCards, numeric)
         == RowsFrom(columns, colnames, a, hg, holecards, startCards, numeric)
    decreases |a|
  {
    assert (a + b)[0] == a[0];
    assert (a + b)[1..] == a[1..] + b;
    if RowsFrom(columns, colnames, a[1..], hg, holecards, startCards, numeric).Err? {
      RowsFromFailed(columns, colnames, a[1..], b, hg, holecards, startCards, numeric);
    }
  }
}
