/** The query refinement of the player statistics page: a SQL template with
    named placeholders is rewritten, placeholder by placeholder, from the
    current filter selection (pyfpdb/GuiPlayerStats.py, `refineQuery`). */
module StatsQuery {
  import opened Text
  import opened PyValues

  /** What `refineQuery` produces: the finished SQL text, or the dictionary
      key whose absence raised `KeyError`. */
  datatype Refinement = Query(sql: string) | KeyError(key: string)

  /** `holecards` is the first flag's truth value, False for no flags. */
  predicate Holecards(flags: seq<PyValue>)
  {
    |flags| > 0 && Truthy(flags[0])
  }

  // ---------------------------------------------------------------------
  // The text each placeholder is replaced by.
  // ---------------------------------------------------------------------

  /** Replacement for `<player_test>`: the ids as an SQL list, or a
      predicate that no row satisfies when there are no ids. */
  function PlayerTest(ids: seq<PyValue>): string
  {
    if |ids| > 0 then SqlTuple(ids) else "1 = 2"
  }

  /** Replacement for `<seats_test>`. A non-empty seats dictionary must hold
      both bounds ('from' is read first); an empty one selects every table
      size. */
  function SeatsTest(seats: map<string, PyValue>): (r: Refinement)
    ensures r.KeyError? <==> |seats| > 0 && ("from" !in seats || "to" !in seats)
    ensures r.KeyError? ==> r.key == if "from" !in seats then "from" else "to"
    ensures |seats| == 0 ==> r == Query("between 0 and 100")
    ensures r.Query? && |seats| > 0
            ==> r.sql == "between " + Str(seats["from"]) + " and " + Str(seats["to"])
  {
    if |seats| == 0 then Query("between 0 and 100")
    else if "from" !in seats then KeyError("from")
    else if "to" !in seats then KeyError("to")
    else Query("between " + Str(seats["from"]) + " and " + Str(seats["to"]))
  }

  /** Replacement for both `<groupbyseats>` and `<orderbyseats>`. */
  function SeatsGroup(seats: map<string, PyValue>): (r: string)
    ensures r == ",h.seats" <==> |seats| > 0 && "show" in seats && Truthy(seats["show"])
    ensures r == "" || r == ",h.seats"
  {
    if |seats| > 0 && "show" in seats && Truthy(seats["show"]) then ",h.seats" else ""
  }

  /** `[x for x in limits if str(x).isdigit()]`. */
  function DigitLimits(limits: seq<PyValue>): (r: seq<PyValue>)
    ensures |r| <= |limits|
    ensures forall k :: 0 <= k < |r| ==> IsDigits(Str(r[k])) && r[k] in limits
    ensures forall v :: v in limits && IsDigits(Str(v)) ==> v in r
    decreases |limits|
  {
    if limits == [] then []
    else
      var rest := DigitLimits(limits[1..]);
      if IsDigits(Str(limits[0])) then [limits[0]] + rest else rest
  }

  /** Replacement for `<gtbigBlind_test>`. */
  function BlindTest(limits: seq<PyValue>): string
  {
    var blinds := DigitLimits(limits);
    if |blinds| > 0 then " and gt.bigBlind in " + SqlTuple(blinds) + " " else ""
  }

  /** Levels are grouped together unless "show" occurs in `str(limits)`. */
  predicate GroupLevels(limits: seq<PyValue>)
  {
    !Contains(ListRepr(limits), "show")
  }

  /** Replacement for `<hgameTypeId>`. */
  function LevelKey(holecards: bool, limits: seq<PyValue>): string
  {
    if holecards then "hp.startcards"
    else if GroupLevels(limits) then "-1"
    else "h.gameTypeId"
  }

  /** Replacement for `<orderbyhgameTypeId>`. */
  function LevelOrder(holecards: bool): string
  {
    if holecards then ",hgameTypeId desc" else ""
  }

  /** The clause one detail filter contributes: only three-element entries
      `(column, low, high)` contribute. */
  function FilterClause(f: seq<PyValue>): string
  {
    if |f| == 3 then " and " + Str(f[0]) + " between " + Str(f[1]) + " and " + Str(f[2]) + " "
    else ""
  }

  /** Replacement for `<flagtest>`: the clauses of the detail filters, in
      list order. */
  function FlagTest(filters: seq<seq<PyValue>>): string
    decreases |filters|
  {
    if filters == [] then "" else FilterClause(filters[0]) + FlagTest(filters[1..])
  }

  /** Backend code of MySQL with InnoDB tables, the only backend whose
      `cast()` needs `signed`. */
  const MYSQL_INNODB: int := 2

  /** Replacement for `<signed>`. */
  function Signed(backend: int): (r: string)
    ensures r == "signed " <==> backend == MYSQL_INNODB
    ensures backend != MYSQL_INNODB ==> r == ""
  {
    if backend == MYSQL_INNODB then "signed " else ""
  }

  /** `"<" + name + ">"`. */
  function Placeholder(name: string): string
  {
    "<" + name + ">"
  }

  /** The three seat placeholders, in the source's order. */
  function SeatsStage(q: string, seatsTest: string, seats: map<string, PyValue>): string
  {
    var q1 := Replace(q, "<seats_test>", seatsTest);
    var q2 := Replace(q1, "<groupbyseats>", SeatsGroup(seats));
    Replace(q2, "<orderbyseats>", SeatsGroup(seats))
  }

  /** The two level placeholders; their order depends on the hole-card flag,
      as in the source. */
  function LevelStage(q: string, holecards: bool, limits: seq<PyValue>): string
  {
    if holecards then
      Replace(Replace(q, "<hgameTypeId>", LevelKey(holecards, limits)),
              "<orderbyhgameTypeId>", LevelOrder(holecards))
    else
      Replace(Replace(q, "<orderbyhgameTypeId>", LevelOrder(holecards)),
              "<hgameTypeId>", LevelKey(holecards, limits))
  }

  /** The whole refinement, placeholder by placeholder in the order the
      source applies them. */
  function Refined(query: string, holecards: bool, ids: seq<PyValue>, limits: seq<PyValue>,
                   seats: map<string, PyValue>, filters: seq<seq<PyValue>>, backend: int): Refinement
  {
    var q1 := Replace(query, "<player_test>", PlayerTest(ids));
    match SeatsTest(seats)
    case KeyError(k) => KeyError(k)
    case Query(seatsTest) =>
      var q4 := SeatsStage(q1, seatsTest, seats);
      var q5 := Replace(q4, "<gtbigBlind_test>", BlindTest(limits));
      var q7 := LevelStage(q5, holecards, limits);
      var q8 := Replace(q7, "<flagtest>", FlagTest(filters));
      Query(Replace(q8, "<signed>", Signed(backend)))
  }

  // ---------------------------------------------------------------------
  // Properties of the individual substitutions.
  // ---------------------------------------------------------------------

  /** No player ids: a predicate that selects nothing. Otherwise the ids as an
      SQL list, without long suffixes and without a trailing comma. */
  lemma PlayerTestIsInList(ids: seq<PyValue>)
    requires forall k :: 0 <= k < |ids| ==> ids[k].PyInt?
    ensures |ids| == 0 ==> PlayerTest(ids) == "1 = 2"
    ensures |ids| > 0 ==> PlayerTest(ids) == InList(ids)
  {
    if |ids| > 0 {
      SqlTupleIsInList(ids);
    }
  }

  /** The digit filter keeps the digit entries in their original order: it
      distributes over concatenation. */
  lemma {:induction false} DigitLimitsAppend(a: seq<PyValue>, b: seq<PyValue>)
    ensures DigitLimits(a + b) == DigitLimits(a) + DigitLimits(b)
    decreases |a|
  {
    if a == [] {
      assert a + b == b;
    } else {
      assert (a + b)[1..] == a[1..] + b;
      DigitLimitsAppend(a[1..], b);
    }
  }

  /** A single limit entry is kept exactly when `str(x).isdigit()`. */
  lemma DigitLimitsSingle(v: PyValue)
    ensures DigitLimits([v]) == if IsDigits(Str(v)) then [v] else []
  {
    assert [v][1..] == [];
  }

  /** `<gtbigBlind_test>` lists the selected big blinds in order, or is
      empty when no limit entry is all digits. */
  lemma BlindTestIsInList(limits: seq<PyValue>)
    ensures DigitLimits(limits) == [] ==> BlindTest(limits) == ""
    ensures forall k :: 0 <= k < |DigitLimits(limits)| ==> Plain(DigitLimits(limits)[k])
    ensures DigitLimits(limits) != []
            ==> BlindTest(limits) == " and gt.bigBlind in " + InList(DigitLimits(limits)) + " "
  {
    var blinds := DigitLimits(limits);
    forall k | 0 <= k < |blinds| ensures Plain(blinds[k]) {
      DigitStr(blinds[k]);
    }
    if blinds != [] {
      SqlTupleIsInList(blinds);
    }
  }

  /** Without hole cards, levels are kept apart (`h.gameTypeId`) exactly
      when some string limit entry contains "show"; otherwise they are
      collapsed (`-1`). With hole cards the key is the starting hand. */
  lemma LevelKeyCases(holecards: bool, limits: seq<PyValue>)
    ensures holecards ==> LevelKey(holecards, limits) == "hp.startcards"
    ensures !holecards ==>
      (LevelKey(holecards, limits) == "h.gameTypeId" <==> exists k :: 0 <= k < |limits| && ShowStr(limits[k]))
    ensures !holecards && !(exists k :: 0 <= k < |limits| && ShowStr(limits[k]))
            ==> LevelKey(holecards, limits) == "-1"
  {
    ShowInListRepr(limits);
  }

  /** The detail-filter clauses concatenate in list order. */
  lemma {:induction false} FlagTestAppend(a: seq<seq<PyValue>>, b: seq<seq<PyValue>>)
    ensures FlagTest(a + b) == FlagTest(a) + FlagTest(b)
    decreases |a|
  {
    if a == [] {
      assert a + b == b;
    } else {
      assert (a + b)[1..] == a[1..] + b;
      FlagTestAppend(a[1..], b);
    }
  }

  /** Entries that are not triples contribute nothing. */
  lemma {:induction false} FlagTestIgnoresNonTriples(filters: seq<seq<PyValue>>)
    requires forall k :: 0 <= k < |filters| ==> |filters[k]| != 3
    ensures FlagTest(filters) == ""
    decreases |filters|
  {
    if filters != [] {
      FlagTestIgnoresNonTriples(filters[1..]);
    }
  }

  /** The refinement fails exactly when the seats dictionary is non-empty
      and lacks a bound. */
  lemma RefinedFails(query: string, holecards: bool, ids: seq<PyValue>, limits: seq<PyValue>,
                     seats: map<string, PyValue>, filters: seq<seq<PyValue>>, backend: int)
    ensures Refined(query, holecards, ids, limits, seats, filters, backend).KeyError?
        <==> |seats| > 0 && ("from" !in seats || "to" !in seats)
  {
  }

  // ---------------------------------------------------------------------
  // Templates: literal text interleaved with placeholders.
  // ---------------------------------------------------------------------

  /** A piece of a query template: literal SQL, or a placeholder `<name>`. */
  datatype Piece = Lit(text: string) | Hole(name: string)

  function PieceText(p: Piece): string
  {
    match p
    case Lit(s) => s
    case Hole(n) => Placeholder(n)
  }

  function Render(t: seq<Piece>): string
    decreases |t|
  {
    if t == [] then "" else PieceText(t[0]) + Render(t[1..])
  }

  /** Literal text holds no '<', and placeholder names no angle bracket. */
  predicate PieceOk(p: Piece)
  {
    match p
    case Lit(s) => '<' !in s
    case Hole(n) => '<' !in n && '>' !in n
  }

  predicate WellFormed(t: seq<Piece>)
  {
    forall k :: 0 <= k < |t| ==> PieceOk(t[k])
  }

  function FillPiece(p: Piece, subst: map<string, string>): Piece
  {
    if p.Hole? && p.name in subst then Lit(subst[p.name]) else p
  }

  /** The template with every placeholder named in `subst` turned into its
      text; other placeholders are kept. */
  function Fill(t: seq<Piece>, subst: map<string, string>): seq<Piece>
  {
    seq(|t|, k requires 0 <= k < |t| => FillPiece(t[k], subst))
  }

  /** The text the refinement gives each of the nine placeholders. */
  function Substitution(holecards: bool, ids: seq<PyValue>, limits: seq<PyValue>, seatsTest: string,
                        seats: map<string, PyValue>, filters: seq<seq<PyValue>>, backend: int): map<string, string>
  {
    map["player_test" := PlayerTest(ids),
        "seats_test" := seatsTest,
        "groupbyseats" := SeatsGroup(seats),
        "orderbyseats" := SeatsGroup(seats),
        "gtbigBlind_test" := BlindTest(limits),
        "hgameTypeId" := LevelKey(holecards, limits),
        "orderbyhgameTypeId" := LevelOrder(holecards),
        "flagtest" := FlagTest(filters),
        "signed" := Signed(backend)]
  }

  predicate AngleFree(subst: map<string, string>)
  {
    forall n :: n in subst ==> '<' !in subst[n]
  }

  lemma FillWellFormed(t: seq<Piece>, subst: map<string, string>)
    requires WellFormed(t) && AngleFree(subst)
    ensures WellFormed(Fill(t, subst))
  {
  }

  lemma FillNothing(t: seq<Piece>)
    ensures Fill(t, map[]) == t
  {
  }

  lemma FillMore(t: seq<Piece>, subst: map<string, string>, n: string, rep: string)
    requires n !in subst
    ensures Fill(Fill(t, subst), map[n := rep]) == Fill(t, subst[n := rep])
  {
  }

  /** A different placeholder is not an occurrence of `<n>`: its closing
      bracket cannot line up with a name character. */
  lemma PlaceholderMismatch(m: string, n: string, rest: string)
    requires PieceOk(Hole(m)) && PieceOk(Hole(n)) && m != n
    ensures !(Placeholder(n) <= Placeholder(m) + rest)
  {
    var p, s := Placeholder(n), Placeholder(m) + rest;
    if |n| < |m| {
      assert s[|n| + 1] == m[|n|];
      assert p[|n| + 1] == '>';
    } else if |n| > |m| {
      assert s[|m| + 1] == '>';
      assert p[|m| + 1] == n[|m|];
    } else {
      assert p[1..|n| + 1] == n;
      assert s[1..|m| + 1] == m;
    }
  }

  /** Replacing `<n>` in one piece followed by more text. */
  lemma ReplacePiece(p: Piece, rest: string, n: string, rep: string)
    requires PieceOk(p) && PieceOk(Hole(n))
    ensures Replace(PieceText(p) + rest, Placeholder(n), rep)
         == PieceText(FillPiece(p, map[n := rep])) + Replace(rest, Placeholder(n), rep)
  {
    match p
    case Lit(s) =>
      ReplaceSkip(s, rest, Placeholder(n), rep);
    case Hole(m) =>
      if m == n {
        ReplaceHead(rest, Placeholder(n), rep);
      } else {
        ReplaceOtherHole(m, n, rest, rep);
      }
  }

  /** A different placeholder is copied and the scan goes on after it. */
  lemma ReplaceOtherHole(m: string, n: string, rest: string, rep: string)
    requires PieceOk(Hole(m)) && PieceOk(Hole(n)) && m != n
    ensures Replace(Placeholder(m) + rest, Placeholder(n), rep) == Placeholder(m) + Replace(rest, Placeholder(n), rep)
  {
    var s := Placeholder(m) + rest;
    assert Replace(s, Placeholder(n), rep) == "<" + Replace(s[1..], Placeholder(n), rep) by {
      PlaceholderMismatch(m, n, rest);
    }
    assert s[1..] == (m + ">") + rest;
    ReplaceSkip(m + ">", rest, Placeholder(n), rep);
    assert Placeholder(m) == "<" + (m + ">");
  }

  /** Replacing `<n>` in a rendered template turns exactly the `Hole(n)`
      pieces into the replacement text and leaves everything else alone. */
  lemma {:induction false} ReplaceHole(t: seq<Piece>, n: string, rep: string)
    requires WellFormed(t) && PieceOk(Hole(n))
    ensures Replace(Render(t), Placeholder(n), rep) == Render(Fill(t, map[n := rep]))
    decreases |t|
  {
    var sub := map[n := rep];
    if t != [] {
      var rest := Render(t[1..]);
      var filled := Fill(t, sub);
      assert Render(t) == PieceText(t[0]) + rest;
      assert filled[1..] == Fill(t[1..], sub);
      assert Render(filled) == PieceText(FillPiece(t[0], sub)) + Render(Fill(t[1..], sub));
      ReplaceHole(t[1..], n, rep);
      ReplacePiece(t[0], rest, n, rep);
    }
  }

  /** One step of the refinement on a template already filled by `subst`. */
  lemma Step(t: seq<Piece>, subst: map<string, string>, n: string, rep: string)
    requires WellFormed(t) && AngleFree(subst) && PieceOk(Hole(n)) && n !in subst
    ensures Replace(Render(Fill(t, subst)), Placeholder(n), rep) == Render(Fill(t, subst[n := rep]))
  {
    FillWellFormed(t, subst);
    ReplaceHole(Fill(t, subst), n, rep);
    FillMore(t, subst, n, rep);
  }

  /** Replacing the placeholder spelled out in the source is the same step. */
  lemma StepNamed(t: seq<Piece>, subst: map<string, string>, n: string, spelled: string, rep: string)
    requires WellFormed(t) && AngleFree(subst) && PieceOk(Hole(n)) && n !in subst
    requires spelled == Placeholder(n) && '<' !in rep
    ensures Replace(Render(Fill(t, subst)), spelled, rep) == Render(Fill(t, subst[n := rep]))
    ensures AngleFree(subst[n := rep])
  {
    Step(t, subst, n, rep);
  }

  /** The source spells each placeholder as `"<" + name + ">"`. */
  lemma SpelledSeats()
    ensures "<player_test>" == Placeholder("player_test")
    ensures "<seats_test>" == Placeholder("seats_test")
    ensures "<groupbyseats>" == Placeholder("groupbyseats")
    ensures "<orderbyseats>" == Placeholder("orderbyseats")
  {
  }

  lemma SpelledLevels()
    ensures "<gtbigBlind_test>" == Placeholder("gtbigBlind_test")
    ensures "<hgameTypeId>" == Placeholder("hgameTypeId")
    ensures "<orderbyhgameTypeId>" == Placeholder("orderbyhgameTypeId")
  {
  }

  lemma SpelledFlags()
    ensures "<flagtest>" == Placeholder("flagtest")
    ensures "<signed>" == Placeholder("signed")
  {
  }

  /** The placeholder names are valid hole names. */
  lemma PlayerNames()
    ensures PieceOk(Hole("player_test")) && PieceOk(Hole("seats_test"))
  {
  }

  lemma SeatGroupNames()
    ensures PieceOk(Hole("groupbyseats")) && PieceOk(Hole("orderbyseats"))
  {
  }

  lemma LevelNames()
    ensures PieceOk(Hole("gtbigBlind_test")) && PieceOk(Hole("hgameTypeId"))
  {
  }

  lemma OrderName()
    ensures PieceOk(Hole("orderbyhgameTypeId"))
  {
  }

  lemma FlagNames()
    ensures PieceOk(Hole("flagtest")) && PieceOk(Hole("signed"))
  {
  }

  /** The player and seat replacements fill the first four placeholders. */
  lemma FillPlayerSeats(t: seq<Piece>, pt: string, st: string, g: string)
    requires WellFormed(t)
    requires '<' !in pt && '<' !in st && '<' !in g
    ensures Replace(Replace(Replace(Replace(Render(t), "<player_test>", pt), "<seats_test>", st),
                            "<groupbyseats>", g), "<orderbyseats>", g)
         == Render(Fill(t, map["player_test" := pt, "seats_test" := st, "groupbyseats" := g, "orderbyseats" := g]))
    ensures AngleFree(map["player_test" := pt, "seats_test" := st, "groupbyseats" := g, "orderbyseats" := g])
  {
    var m0: map<string, string> := map[];
    var m1 := m0["player_test" := pt];
    var m2 := m1["seats_test" := st];
    var m3 := m2["groupbyseats" := g];
    SpelledSeats();
    PlayerNames();
    SeatGroupNames();
    FillNothing(t);
    StepNamed(t, m0, "player_test", "<player_test>", pt);
    StepNamed(t, m1, "seats_test", "<seats_test>", st);
    StepNamed(t, m2, "groupbyseats", "<groupbyseats>", g);
    StepNamed(t, m3, "orderbyseats", "<orderbyseats>", g);
  }

  /** The level placeholders when hole cards are shown: key first. */
  lemma FillKeyOrder(t: seq<Piece>, m: map<string, string>, key: string, order: string)
    requires WellFormed(t) && AngleFree(m)
    requires "hgameTypeId" !in m && "orderbyhgameTypeId" !in m
    requires '<' !in key && '<' !in order
    ensures Replace(Replace(Render(Fill(t, m)), "<hgameTypeId>", key), "<orderbyhgameTypeId>", order)
         == Render(Fill(t, m["hgameTypeId" := key]["orderbyhgameTypeId" := order]))
    ensures AngleFree(m["hgameTypeId" := key]["orderbyhgameTypeId" := order])
  {
    SpelledLevels();
    LevelNames();
    OrderName();
    StepNamed(t, m, "hgameTypeId", "<hgameTypeId>", key);
    StepNamed(t, m["hgameTypeId" := key], "orderbyhgameTypeId", "<orderbyhgameTypeId>", order);
  }

  /** The level placeholders otherwise: order first. */
  lemma FillOrderKey(t: seq<Piece>, m: map<string, string>, key: string, order: string)
    requires WellFormed(t) && AngleFree(m)
    requires "hgameTypeId" !in m && "orderbyhgameTypeId" !in m
    requires '<' !in key && '<' !in order
    ensures Replace(Replace(Render(Fill(t, m)), "<orderbyhgameTypeId>", order), "<hgameTypeId>", key)
         == Render(Fill(t, m["hgameTypeId" := key]["orderbyhgameTypeId" := order]))
    ensures AngleFree(m["hgameTypeId" := key]["orderbyhgameTypeId" := order])
  {
    SpelledLevels();
    LevelNames();
    OrderName();
    StepNamed(t, m, "orderbyhgameTypeId", "<orderbyhgameTypeId>", order);
    StepNamed(t, m["orderbyhgameTypeId" := order], "hgameTypeId", "<hgameTypeId>", key);
    assert |"hgameTypeId"| != |"orderbyhgameTypeId"|;
    UpdateSwap(m, "orderbyhgameTypeId", order, "hgameTypeId", key);
  }

  /** The blind and level replacements fill the next three placeholders,
      in either of the source's two orders. */
  lemma FillBlindLevels(t: seq<Piece>, m: map<string, string>, holecards: bool, bt: string, key: string, order: string)
    requires WellFormed(t) && AngleFree(m)
    requires "gtbigBlind_test" !in m && "hgameTypeId" !in m && "orderbyhgameTypeId" !in m
    requires '<' !in bt && '<' !in key && '<' !in order
    ensures
      var q5 := Replace(Render(Fill(t, m)), "<gtbigBlind_test>", bt);
      (if holecards then Replace(Replace(q5, "<hgameTypeId>", key), "<orderbyhgameTypeId>", order)
       else Replace(Replace(q5, "<orderbyhgameTypeId>", order), "<hgameTypeId>", key))
        == Render(Fill(t, m["gtbigBlind_test" := bt]["hgameTypeId" := key]["orderbyhgameTypeId" := order]))
    ensures AngleFree(m["gtbigBlind_test" := bt]["hgameTypeId" := key]["orderbyhgameTypeId" := order])
  {
    var m5 := m["gtbigBlind_test" := bt];
    SpelledLevels();
    LevelNames();
    StepNamed(t, m, "gtbigBlind_test", "<gtbigBlind_test>", bt);
    assert "hgameTypeId" !in m5 && "orderbyhgameTypeId" !in m5 by {
      assert |"gtbigBlind_test"| != |"hgameTypeId"|;
      assert |"gtbigBlind_test"| != |"orderbyhgameTypeId"|;
    }
    if holecards {
      FillKeyOrder(t, m5, key, order);
    } else {
      FillOrderKey(t, m5, key, order);
    }
  }

  /** Updates of two different keys commute. */
  lemma UpdateSwap(m: map<string, string>, a: string, x: string, b: string, y: string)
    requires a != b
    ensures m[a := x][b := y] == m[b := y][a := x]
  {
  }

  /** The flag and cast replacements fill the last two placeholders. */
  lemma FillFlagSigned(t: seq<Piece>, m: map<string, string>, ft: string, sg: string)
    requires WellFormed(t) && AngleFree(m)
    requires "flagtest" !in m && "signed" !in m
    requires '<' !in ft && '<' !in sg
    ensures Replace(Replace(Render(Fill(t, m)), "<flagtest>", ft), "<signed>", sg)
         == Render(Fill(t, m["flagtest" := ft]["signed" := sg]))
  {
    SpelledFlags();
    FlagNames();
    StepNamed(t, m, "flagtest", "<flagtest>", ft);
    StepNamed(t, m["flagtest" := ft], "signed", "<signed>", sg);
  }

  /** The nine replacements in the source's order, given their texts, fill
      the nine placeholders of a template. */
  lemma FillNine(t: seq<Piece>, holecards: bool, pt: string, st: string, g: string, bt: string,
                 key: string, order: string, ft: string, sg: string)
    requires WellFormed(t)
    requires '<' !in pt && '<' !in st && '<' !in g && '<' !in bt
    requires '<' !in key && '<' !in order && '<' !in ft && '<' !in sg
    ensures
      var q4 := Replace(Replace(Replace(Replace(Render(t), "<player_test>", pt), "<seats_test>", st),
                                "<groupbyseats>", g), "<orderbyseats>", g);
      var q5 := Replace(q4, "<gtbigBlind_test>", bt);
      var q7 := if holecards then Replace(Replace(q5, "<hgameTypeId>", key), "<orderbyhgameTypeId>", order)
                else Replace(Replace(q5, "<orderbyhgameTypeId>", order), "<hgameTypeId>", key);
      Replace(Replace(q7, "<flagtest>", ft), "<signed>", sg)
        == Render(Fill(t, map["player_test" := pt, "seats_test" := st, "groupbyseats" := g,
                              "orderbyseats" := g, "gtbigBlind_test" := bt, "hgameTypeId" := key,
                              "orderbyhgameTypeId" := order, "flagtest" := ft, "signed" := sg]))
  {
    var m4 := map["player_test" := pt, "seats_test" := st, "groupbyseats" := g, "orderbyseats" := g];
    var m7 := m4["gtbigBlind_test" := bt]["hgameTypeId" := key]["orderbyhgameTypeId" := order];
    FillPlayerSeats(t, pt, st, g);
    FillBlindLevels(t, m4, holecards, bt, key, order);
    FillFlagSigned(t, m7, ft, sg);
  }

  /** The first four fragments of an angle-free substitution hold no '<'. */
  lemma FirstFragments(holecards: bool, ids: seq<PyValue>, limits: seq<PyValue>, st: string,
                       seats: map<string, PyValue>, filters: seq<seq<PyValue>>, backend: int)
    requires AngleFree(Substitution(holecards, ids, limits, st, seats, filters, backend))
    ensures '<' !in PlayerTest(ids) && '<' !in st && '<' !in SeatsGroup(seats) && '<' !in BlindTest(limits)
  {
    var subst := Substitution(holecards, ids, limits, st, seats, filters, backend);
    assert subst["player_test"] == PlayerTest(ids) && subst["seats_test"] == st;
    assert subst["groupbyseats"] == SeatsGroup(seats) && subst["gtbigBlind_test"] == BlindTest(limits);
  }

  /** The last four fragments of an angle-free substitution hold no '<'. */
  lemma LastFragments(holecards: bool, ids: seq<PyValue>, limits: seq<PyValue>, st: string,
                      seats: map<string, PyValue>, filters: seq<seq<PyValue>>, backend: int)
    requires AngleFree(Substitution(holecards, ids, limits, st, seats, filters, backend))
    ensures '<' !in LevelKey(holecards, limits) && '<' !in LevelOrder(holecards)
    ensures '<' !in FlagTest(filters) && '<' !in Signed(backend)
  {
    var subst := Substitution(holecards, ids, limits, st, seats, filters, backend);
    assert subst["hgameTypeId"] == LevelKey(holecards, limits) && subst["orderbyhgameTypeId"] == LevelOrder(holecards);
    assert subst["flagtest"] == FlagTest(filters) && subst["signed"] == Signed(backend);
  }

  /** On a template whose literal text holds no '<' and whose substitutions
      hold none either, the refinement replaces every occurrence of each of
      the nine placeholders by its text and changes nothing else; any other
      placeholder is left as it is. */
  lemma RefinedFillsTemplate(t: seq<Piece>, holecards: bool, ids: seq<PyValue>, limits: seq<PyValue>,
                             seats: map<string, PyValue>, filters: seq<seq<PyValue>>, backend: int)
    requires WellFormed(t)
    requires SeatsTest(seats).Query?
    requires AngleFree(Substitution(holecards, ids, limits, SeatsTest(seats).sql, seats, filters, backend))
    ensures Refined(Render(t), holecards, ids, limits, seats, filters, backend)
         == Query(Render(Fill(t, Substitution(holecards, ids, limits, SeatsTest(seats).sql, seats, filters, backend))))
  {
    var st := SeatsTest(seats).sql;
    var g := SeatsGroup(seats);
    var key, order := LevelKey(holecards, limits), LevelOrder(holecards);
    FirstFragments(holecards, ids, limits, st, seats, filters, backend);
    LastFragments(holecards, ids, limits, st, seats, filters, backend);
    FillNine(t, holecards, PlayerTest(ids), st, g, BlindTest(limits), key, order, FlagTest(filters), Signed(backend));
  }

  /** When every placeholder of such a template is one of the nine, the
      finished query holds no '<' at all, so no placeholder survives. */
  lemma {:induction false} NoPlaceholderLeft(t: seq<Piece>, subst: map<string, string>)
    requires WellFormed(t) && AngleFree(subst)
    requires forall k :: 0 <= k < |t| && t[k].Hole? ==> t[k].name in subst
    ensures '<' !in Render(Fill(t, subst))
    decreases |t|
  {
    if t != [] {
      NoPlaceholderLeft(t[1..], subst);
      assert Fill(t, subst)[1..] == Fill(t[1..], subst);
    }
  }

  /** The names `refineQuery` substitutes. */
  const PlaceholderNames: set<string> :=
    {"player_test", "seats_test", "groupbyseats", "orderbyseats", "gtbigBlind_test",
     "hgameTypeId", "orderbyhgameTypeId", "flagtest", "signed"}

  /** The values the page itself passes in: player ids and seat bounds are
      integers (`int` or `long`), and each detail filter names its column
      without a '<' and bounds it by integers. */
  predicate PageValues(ids: seq<PyValue>, seats: map<string, PyValue>, filters: seq<seq<PyValue>>)
  {
    && (forall k :: 0 <= k < |ids| ==> ids[k].PyInt?)
    && ("from" in seats ==> seats["from"].PyInt?)
    && ("to" in seats ==> seats["to"].PyInt?)
    && (forall k :: 0 <= k < |filters| && |filters[k]| == 3
          ==> '<' !in Str(filters[k][0]) && filters[k][1].PyInt? && filters[k][2].PyInt?)
  }

  lemma PlayerTestAngleFree(ids: seq<PyValue>)
    requires forall k :: 0 <= k < |ids| ==> ids[k].PyInt?
    ensures '<' !in PlayerTest(ids)
  {
    PlayerTestIsInList(ids);
    if |ids| > 0 {
      InListLacks(ids, '<');
    }
  }

  lemma SeatsTestAngleFree(seats: map<string, PyValue>)
    requires SeatsTest(seats).Query?
    requires ("from" in seats ==> seats["from"].PyInt?) && ("to" in seats ==> seats["to"].PyInt?)
    ensures '<' !in SeatsTest(seats).sql
  {
    if |seats| > 0 {
      DecimalChars(seats["from"].i, '<');
      DecimalChars(seats["to"].i, '<');
    }
  }

  lemma BlindTestAngleFree(limits: seq<PyValue>)
    ensures '<' !in BlindTest(limits)
  {
    BlindTestIsInList(limits);
    if DigitLimits(limits) != [] {
      InListLacks(DigitLimits(limits), '<');
    }
  }

  lemma {:induction false} FlagTestAngleFree(filters: seq<seq<PyValue>>)
    requires forall k :: 0 <= k < |filters| && |filters[k]| == 3
               ==> '<' !in Str(filters[k][0]) && filters[k][1].PyInt? && filters[k][2].PyInt?
    ensures '<' !in FlagTest(filters)
    decreases |filters|
  {
    if filters != [] {
      var f := filters[0];
      if |f| == 3 {
        DecimalChars(f[1].i, '<');
        DecimalChars(f[2].i, '<');
      }
      FlagTestAngleFree(filters[1..]);
    }
  }

  /** For the values the page passes, whatever the limits, the hole-card
      flag and the backend, no substitution text holds a '<'. */
  lemma SubstitutionAngleFree(holecards: bool, ids: seq<PyValue>, limits: seq<PyValue>,
                              seats: map<string, PyValue>, filters: seq<seq<PyValue>>, backend: int)
    requires PageValues(ids, seats, filters) && SeatsTest(seats).Query?
    ensures AngleFree(Substitution(holecards, ids, limits, SeatsTest(seats).sql, seats, filters, backend))
    ensures Substitution(holecards, ids, limits, SeatsTest(seats).sql, seats, filters, backend).Keys
            == PlaceholderNames
  {
    var key, order := LevelKey(holecards, limits), LevelOrder(holecards);
    PageFragments(holecards, ids, limits, seats, filters, backend);
    NineAngleFree(PlayerTest(ids), SeatsTest(seats).sql, SeatsGroup(seats), BlindTest(limits),
                  key, order, FlagTest(filters), Signed(backend));
    NineNames(PlayerTest(ids), SeatsTest(seats).sql, SeatsGroup(seats), BlindTest(limits),
              key, order, FlagTest(filters), Signed(backend));
  }

  lemma PageFragments(holecards: bool, ids: seq<PyValue>, limits: seq<PyValue>,
                       seats: map<string, PyValue>, filters: seq<seq<PyValue>>, backend: int)
    requires PageValues(ids, seats, filters) && SeatsTest(seats).Query?
    ensures '<' !in PlayerTest(ids) && '<' !in SeatsTest(seats).sql && '<' !in SeatsGroup(seats)
    ensures '<' !in BlindTest(limits) && '<' !in FlagTest(filters) && '<' !in Signed(backend)
    ensures '<' !in LevelKey(holecards, limits) && '<' !in LevelOrder(holecards)
  {
    PlayerTestAngleFree(ids);
    SeatsTestAngleFree(seats);
    BlindTestAngleFree(limits);
    FlagTestAngleFree(filters);
    FixedFragments(holecards, limits, seats, backend);
  }

  /** The fragments chosen among fixed texts hold no '<'. */
  lemma FixedFragments(holecards: bool, limits: seq<PyValue>, seats: map<string, PyValue>, backend: int)
    ensures '<' !in SeatsGroup(seats) && '<' !in Signed(backend)
    ensures '<' !in LevelKey(holecards, limits) && '<' !in LevelOrder(holecards)
  {
    KeyTexts();
    GroupTexts();
    var key := LevelKey(holecards, limits);
    assert key == "hp.startcards" || key == "-1" || key == "h.gameTypeId";
  }

  lemma KeyTexts()
    ensures '<' !in "hp.startcards" && '<' !in "-1" && '<' !in "h.gameTypeId"
  {
  }

  lemma GroupTexts()
    ensures '<' !in ",hgameTypeId desc" && '<' !in ",h.seats" && '<' !in "signed "
  {
  }

  lemma NineAngleFree(pt: string, st: string, g: string, bt: string, key: string, order: string,
                      ft: string, sg: string)
    requires '<' !in pt && '<' !in st && '<' !in g && '<' !in bt
    requires '<' !in key && '<' !in order && '<' !in ft && '<' !in sg
    ensures AngleFree(map["player_test" := pt, "seats_test" := st, "groupbyseats" := g, "orderbyseats" := g,
                          "gtbigBlind_test" := bt, "hgameTypeId" := key, "orderbyhgameTypeId" := order,
                          "flagtest" := ft, "signed" := sg])
  {
  }

  lemma NineNames(pt: string, st: string, g: string, bt: string, key: string, order: string,
                  ft: string, sg: string)
    ensures map["player_test" := pt, "seats_test" := st, "groupbyseats" := g, "orderbyseats" := g,
                "gtbigBlind_test" := bt, "hgameTypeId" := key, "orderbyhgameTypeId" := order,
                "flagtest" := ft, "signed" := sg].Keys == PlaceholderNames
  {
  }

  /** The page's own query, refined from the values the page passes, holds
      no '<': every placeholder of the template is replaced and none is
      spliced together. */
  lemma RefinedLeavesNoPlaceholder(t: seq<Piece>, holecards: bool, ids: seq<PyValue>, limits: seq<PyValue>,
                                   seats: map<string, PyValue>, filters: seq<seq<PyValue>>, backend: int)
    requires WellFormed(t)
    requires forall k :: 0 <= k < |t| && t[k].Hole? ==> t[k].name in PlaceholderNames
    requires PageValues(ids, seats, filters) && SeatsTest(seats).Query?
    ensures Refined(Render(t), holecards, ids, limits, seats, filters, backend).Query?
    ensures '<' !in Refined(Render(t), holecards, ids, limits, seats, filters, backend).sql
  {
    var subst := Substitution(holecards, ids, limits, SeatsTest(seats).sql, seats, filters, backend);
    SubstitutionAngleFree(holecards, ids, limits, seats, filters, backend);
    RefinedFillsTemplate(t, holecards, ids, limits, seats, filters, backend);
    NoPlaceholderLeft(t, subst);
  }

  lemma SpliceFirstStep(a: string, b: string, p: string, s: string)
    requires b != [] && '<' !in a && '<' !in b && p == Placeholder(a + b) && s == "<" + a + p + b + ">"
    ensures Replace(s, p, "") == "<" + Replace(s[1..], p, "")
    ensures s[1..] == a + (p + (b + ">"))
  {
    assert s[|a| + 1] == '<';
    assert p[|a| + 1] == b[0];
  }

  /** `str.replace` is a single pass: when literal text holds a '<', an empty
      substitution can join two halves of a placeholder into one that
      survives (`<groupby<groupbyseats>seats>` becomes `<groupbyseats>`). */
  lemma EmptySubstitutionSplices(a: string, b: string)
    requires b != [] && '<' !in a && '<' !in b
    ensures Replace("<" + a + Placeholder(a + b) + b + ">", Placeholder(a + b), "") == Placeholder(a + b)
  {
    var p := Placeholder(a + b);
    var s := "<" + a + p + b + ">";
    var tail := b + ">";
    calc {
      Replace(s, p, "");
    == { SpliceFirstStep(a, b, p, s); }
      "<" + Replace(a + (p + tail), p, "");
    == { ReplaceSkip(a, p + tail, p, ""); }
      "<" + (a + Replace(p + tail, p, ""));
    == { ReplaceHead(tail, p, ""); SpliceTail(b, p); assert "" + tail == tail; }
      "<" + (a + tail);
    }
    assert "<" + (a + tail) == p;
  }

  /** The text after the spliced placeholder holds no '<'. */
  lemma SpliceTail(b: string, p: string)
    requires '<' !in b && p != [] && p[0] == '<'
    ensures Replace(b + ">", p, "") == b + ">"
  {
    ReplaceSkip(b + ">", "", p, "");
    assert b + ">" + "" == b + ">";
  }

  /** A placeholder other than `<n>` survives replacing `<n>`. */
  lemma HoleStays(m: string, n: string, rep: string)
    requires PieceOk(Hole(m)) && PieceOk(Hole(n)) && m != n
    ensures Replace(Placeholder(m), Placeholder(n), rep) == Placeholder(m)
  {
    ReplaceOtherHole(m, n, "", rep);
    assert Placeholder(m) + "" == Placeholder(m);
  }

  /** In the spliced text `<a<ab>b>` no other placeholder occurs: the
      leading '<' opens no placeholder name, and `<ab>` is not `<n>`. */
  lemma SplicedOther(a: string, b: string, n: string, rep: string)
    requires '<' !in a && '>' !in a && '<' !in b && '>' !in b && b != []
    requires PieceOk(Hole(n)) && n != a + b
    ensures Replace("<" + a + Placeholder(a + b) + b + ">", Placeholder(n), rep)
         == "<" + a + Placeholder(a + b) + b + ">"
  {
    var m := a + b;
    var s := "<" + a + Placeholder(m) + b + ">";
    var p := Placeholder(n);
    assert s[|a| + 1] == '<';
    assert !(p <= s) by {
      if |n| < |a| {
        assert s[|n| + 1] == a[|n|] && p[|n| + 1] == '>';
      } else if |n| == |a| {
        assert p[|n| + 1] == '>';
      } else {
        assert p[|a| + 1] == n[|a|];
      }
    }
    assert s[1..] == a + (Placeholder(m) + (b + ">"));
    calc {
      Replace(s, p, rep);
      "<" + Replace(a + (Placeholder(m) + (b + ">")), p, rep);
    == { ReplaceSkip(a, Placeholder(m) + (b + ">"), p, rep); }
      "<" + (a + Replace(Placeholder(m) + (b + ">"), p, rep));
    == { ReplaceOtherHole(m, n, b + ">", rep); }
      "<" + (a + (Placeholder(m) + Replace(b + ">", p, rep)));
    == { ReplaceSkip(b + ">", "", p, rep); assert b + ">" + "" == b + ">"; }
      "<" + (a + (Placeholder(m) + (b + ">")));
    }
  }

  /** With seat grouping off, the seat placeholders of `<a<ab>b>`, where
      `ab` is `groupbyseats`, leave `<groupbyseats>` behind. */
  lemma SplicedSeats(a: string, b: string, ids: seq<PyValue>)
    requires '<' !in a && '>' !in a && '<' !in b && '>' !in b && b != [] && a + b == "groupbyseats"
    ensures SeatsStage(Replace("<" + a + Placeholder(a + b) + b + ">", "<player_test>", PlayerTest(ids)),
                       "between 0 and 100", map[])
         == Placeholder(a + b)
  {
    var q := "<" + a + Placeholder(a + b) + b + ">";
    SpelledSeats();
    PlayerNames();
    SeatGroupNames();
    SplicedOther(a, b, "player_test", PlayerTest(ids));
    SplicedOther(a, b, "seats_test", "between 0 and 100");
    EmptySubstitutionSplices(a, b);
    HoleStays("groupbyseats", "orderbyseats", "");
  }

  /** The later placeholders all differ from `<groupbyseats>`. */
  lemma SplicedKept(holecards: bool, limits: seq<PyValue>, filters: seq<seq<PyValue>>, backend: int)
    ensures var q5 := Replace(Placeholder("groupbyseats"), "<gtbigBlind_test>", BlindTest(limits));
            var q7 := LevelStage(q5, holecards, limits);
            Replace(Replace(q7, "<flagtest>", FlagTest(filters)), "<signed>", Signed(backend))
              == Placeholder("groupbyseats")
  {
    var g := "groupbyseats";
    SpelledLevels();
    SpelledFlags();
    SeatGroupNames();
    LevelNames();
    OrderName();
    FlagNames();
    HoleStays(g, "gtbigBlind_test", BlindTest(limits));
    HoleStays(g, "hgameTypeId", LevelKey(holecards, limits));
    HoleStays(g, "orderbyhgameTypeId", LevelOrder(holecards));
    HoleStays(g, "flagtest", FlagTest(filters));
    HoleStays(g, "signed", Signed(backend));
  }

  lemma SplicedRefined(a: string, b: string, holecards: bool, ids: seq<PyValue>, limits: seq<PyValue>,
                       filters: seq<seq<PyValue>>, backend: int)
    requires '<' !in a && '>' !in a && '<' !in b && '>' !in b && b != [] && a + b == "groupbyseats"
    ensures Refined("<" + a + Placeholder(a + b) + b + ">", holecards, ids, limits, map[], filters, backend)
         == Query(Placeholder(a + b))
  {
    SplicedSeats(a, b, ids);
    SplicedKept(holecards, limits, filters, backend);
  }

  /** The refinement itself, with seat grouping off, turns
      `<groupby<groupbyseats>seats>` into a query that still holds the
      placeholder `<groupbyseats>`. */
  lemma RefinedSplices(holecards: bool, ids: seq<PyValue>, limits: seq<PyValue>,
                       filters: seq<seq<PyValue>>, backend: int)
    ensures Refined("<groupby<groupbyseats>seats>", holecards, ids, limits, map[], filters, backend)
         == Query("<groupbyseats>")
  {
    SplicedSpelling();
    SpelledSeats();
    SplicedRefined("groupby", "seats", holecards, ids, limits, filters, backend);
  }

  lemma SplicedSpelling()
    ensures "groupby" + "seats" == "groupbyseats"
    ensures "<groupby<groupbyseats>seats>" == "<" + "groupby" + Placeholder("groupbyseats") + "seats" + ">"
  {
  }

  /** One more filter appends its clause. */
  lemma FlagTestStep(filters: seq<seq<PyValue>>, i: nat)
    requires i < |filters|
    ensures FlagTest(filters[..i + 1]) == FlagTest(filters[..i]) + FilterClause(filters[i])
  {
    var f := filters[i];
    assert FlagTest([f]) == FilterClause(f) by {
      assert [f][1..] == filters[..0];
    }
    assert filters[..i + 1] == filters[..i] + [f];
    FlagTestAppend(filters[..i], [f]);
  }

  /** The detail-filter loop of `refineQuery`: one `X between Y and Z`
      clause per three-element filter, appended in list order. */
  method DetailClauses(filters: seq<seq<PyValue>>) returns (flagtest: string)
    ensures flagtest == FlagTest(filters)
  {
    flagtest := "";
    var i := 0;
    while i < |filters|
      invariant 0 <= i <= |filters|
      invariant flagtest == FlagTest(filters[..i])
    {
      var f := filters[i];
      if |f| == 3 {
        flagtest := flagtest + (" and " + Str(f[0]) + " between " + Str(f[1]) + " and " + Str(f[2]) + " ");
      }
      FlagTestStep(filters, i);
      i := i + 1;
    }
    assert filters[..i] == filters;
  }
}
