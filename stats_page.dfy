/** The statistics page object (pyfpdb/GuiPlayerStats.py, class
    `GuiPlayerStats`): the state `refineQuery` reads, the row loop of
    `addTable` and the site loop of `fillStatsFrame`. The widgets, the
    database connection and the filter panel are not modelled; what they
    supply arrives as parameters. */
module StatsPage {
  import opened Text
  import opened PyValues
  import opened StatsQuery
  import Table = StatsTable
  import Frame = StatsFrame

  /** The part of the page the modelled operations read: the detail
      filters chosen in the filter dialog, the database backend code and the
      column configuration. */
  class PlayerStats {
    var detailFilters: seq<seq<PyValue>>
    var backend: int
    const columns: seq<Table.Column>

    constructor (backend: int)
      ensures this.backend == backend && detailFilters == [] && columns == Table.Columns
    {
      this.backend := backend;
      detailFilters := [];
      columns := Table.Columns;
    }

    /** Rewrites the placeholders of `query` in the source's order; `sitenos`
        is accepted and not used, as in the source. */
    method RefineQuery(query: string, flags: seq<PyValue>, playerids: seq<PyValue>, sitenos: seq<PyValue>,
                       limits: seq<PyValue>, seats: map<string, PyValue>) returns (r: Refinement)
      ensures r == Refined(query, Holecards(flags), playerids, limits, seats, detailFilters, backend)
    {
      var holecards := Holecards(flags);
      var q := query;
      if |playerids| > 0 {
        var nametest := Replace(TupleRepr(playerids), "L", "");
        nametest := Replace(nametest, ",)", ")");
        q := Replace(q, "<player_test>", nametest);
      } else {
        q := Replace(q, "<player_test>", "1 = 2");
      }
      ghost var q1 := q;
      assert q1 == Replace(query, "<player_test>", PlayerTest(playerids));

      if |seats| > 0 {
        if "from" !in seats {
          return KeyError("from");
        }
        if "to" !in seats {
          return KeyError("to");
        }
        q := Replace(q, "<seats_test>", "between " + Str(seats["from"]) + " and " + Str(seats["to"]));
        if "show" in seats && Truthy(seats["show"]) {
          q := Replace(q, "<groupbyseats>", ",h.seats");
          q := Replace(q, "<orderbyseats>", ",h.seats");
        } else {
          q := Replace(q, "<groupbyseats>", "");
          q := Replace(q, "<orderbyseats>", "");
        }
      } else {
        q := Replace(q, "<seats_test>", "between 0 and 100");
        q := Replace(q, "<groupbyseats>", "");
        q := Replace(q, "<orderbyseats>", "");
      }
      ghost var seatsTest := SeatsTest(seats).sql;
      ghost var q4 := q;
      assert q4 == SeatsStage(q1, seatsTest, seats);

      var blinds := DigitLimits(limits);
      if |blinds| > 0 {
        var blindtest := Replace(TupleRepr(blinds), "L", "");
        blindtest := Replace(blindtest, ",)", ")");
        q := Replace(q, "<gtbigBlind_test>", " and gt.bigBlind in " + blindtest + " ");
      } else {
        q := Replace(q, "<gtbigBlind_test>", "");
      }
      ghost var q5 := q;
      assert q5 == Replace(q4, "<gtbigBlind_test>", BlindTest(limits));

      if holecards {
        q := Replace(q, "<hgameTypeId>", "hp.startcards");
        q := Replace(q, "<orderbyhgameTypeId>", ",hgameTypeId desc");
      } else {
        q := Replace(q, "<orderbyhgameTypeId>", "");
        var groupLevels := !Contains(ListRepr(limits), "show");
        if groupLevels {
          q := Replace(q, "<hgameTypeId>", "-1");
        } else {
          q := Replace(q, "<hgameTypeId>", "h.gameTypeId");
        }
      }
      ghost var q7 := q;
      assert q7 == LevelStage(q5, holecards, limits);

      var flagtest := DetailClauses(detailFilters);
      q := Replace(q, "<flagtest>", flagtest);

      if backend == MYSQL_INNODB {
        q := Replace(q, "<signed>", "signed ");
      } else {
        q := Replace(q, "<signed>", "");
      }
      return Query(q);
    }

    /** The row loop of `addTable` over a fetched result: `description`
        holds the result's column names as the database reports them, each
        row of `result` one value per column. Hole-card names come from
        `startCards` and the floating point formats from `numeric`. */
    method TableRows(flags: seq<PyValue>, description: seq<string>, result: seq<seq<Table.Field>>,
                     startCards: Table.Field -> string, numeric: (string, Table.Field) -> string)
      returns (r: Table.Result<seq<seq<string>>>)
      requires Table.Rectangular(description, result)
      ensures Table.Rectangular(LowerNames(description), result)
      ensures r == Table.Table(columns, LowerNames(description), result, Holecards(flags), startCards, numeric)
    {
      var holecards := Holecards(flags);
      var colnames := LowerNames(description);
      var shown := Table.Shown(columns);
      if "hgametypeid" !in colnames {
        return Table.Err(Table.NoColumn("hgametypeid"));
      }
      var hg := Table.IndexOf(colnames, "hgametypeid");

      var rows: seq<seq<string>> := [];
      var sqlrow := 0;
      while sqlrow < |result|
        invariant 0 <= sqlrow <= |result|
        invariant Table.RowsFrom(shown, colnames, result[..sqlrow], hg, holecards, startCards, numeric) == Table.Ok(rows)
      {
        var line := result[sqlrow];
        var treerow := RowTexts(shown, colnames, line, hg, holecards, startCards, numeric);
        Table.RowsFromAppend(shown, colnames, result[..sqlrow], line, hg, holecards, startCards, numeric);
        assert result[..sqlrow + 1] == result[..sqlrow] + [line];
        if treerow.Err? {
          assert result == result[..sqlrow + 1] + result[sqlrow + 1..];
          Table.RowsFromFailed(shown, colnames, result[..sqlrow + 1], result[sqlrow + 1..], hg, holecards,
                               startCards, numeric);
          return Table.Err(treerow.error);
        }
        rows := rows + [treerow.value];
        sqlrow := sqlrow + 1;
      }
      assert result[..sqlrow] == result;
      return Table.Ok(rows);
    }

    /** The inner loop of the row loop: the cells of one result row over the
        shown columns, skipping a column the result lacks (other than
        "game"). */
    method RowTexts(shown: seq<Table.Column>, colnames: seq<string>, line: seq<Table.Field>, hg: nat, holecards: bool,
                    startCards: Table.Field -> string, numeric: (string, Table.Field) -> string)
      returns (r: Table.Result<seq<string>>)
      requires |line| == |colnames| && hg < |line|
      ensures r == Table.RowCells(shown, colnames, line, hg, holecards, startCards, numeric)
    {
      var treerow: seq<string> := [];
      var col := 0;
      while col < |shown|
        invariant 0 <= col <= |shown|
        invariant Table.RowCells(shown[..col], colnames, line, hg, holecards, startCards, numeric) == Table.Ok(treerow)
      {
        var column := shown[col];
        Table.RowCellsAppend(shown[..col], column, colnames, line, hg, holecards, startCards, numeric);
        assert shown[..col + 1] == shown[..col] + [column];
        var value: Table.Field;
        if column.alias in colnames {
          value := line[Table.IndexOf(colnames, column.alias)];
        } else if column.alias == "game" {
          if holecards {
            value := Table.Text(startCards(line[hg]));
          } else {
            var game := Table.GameValue(colnames, line);
            if game.Err? {
              assert shown == shown[..col + 1] + shown[col + 1..];
              Table.RowCellsFailed(shown[..col + 1], shown[col + 1..], colnames, line, hg, holecards, startCards, numeric);
              return Table.Err(game.error);
            }
            value := game.value;
          }
        } else {
          col := col + 1;
          continue;
        }
        if Table.Truthy(value) && !Table.Sentinel(value) {
          treerow := treerow + [Table.Format(column.format, value, numeric)];
        } else {
          treerow := treerow + [" "];
        }
        col := col + 1;
      }
      assert shown[..col] == shown;
      return Table.Ok(treerow);
    }

    /** The site loop of `fillStatsFrame` and its early exits. The filter
        panel supplies `sites`, `siteids`, `heroes`, `limits` and `seats`;
        `playerRows` stands for the player-id lookup. */
    method FillStatsFrame(sites: seq<Frame.SiteEntry>, siteids: map<string, PyValue>, heroes: map<string, string>,
                          playerRows: string -> seq<PyValue>, limits: seq<PyValue>, seats: map<string, PyValue>)
      returns (r: Frame.Frame)
      ensures r == Frame.FillFrame(sites, siteids, heroes, playerRows, limits, seats)
    {
      var sitenos: seq<PyValue> := [];
      var playerids: seq<PyValue> := [];
      var i := 0;
      while i < |sites|
        invariant 0 <= i <= |sites|
        invariant Frame.ScanSites(sites[..i], siteids, heroes, playerRows) == Frame.Scan(sitenos, playerids)
      {
        var (site, on) := sites[i];
        assert sites[..i + 1][..i] == sites[..i];
        if EqualsTrue(on) {
          if site !in siteids {
            Frame.MissingStays(sites, i + 1, siteids, heroes, playerRows);
            return Frame.FrameKeyError(site);
          }
          sitenos := sitenos + [siteids[site]];
          if site !in heroes {
            Frame.MissingStays(sites, i + 1, siteids, heroes, playerRows);
            return Frame.FrameKeyError(site);
          }
          var result := playerRows(heroes[site]);
          if |result| == 1 {
            playerids := playerids + [result[0]];
          }
        }
        i := i + 1;
      }
      assert sites[..i] == sites;

      if sitenos == [] {
        sitenos := [Frame.DEFAULT_SITE];
      }
      if playerids == [] {
        return Frame.NoPlayerIds;
      }
      if limits == [] {
        return Frame.NoLimits;
      }
      return Frame.Tables(playerids, sitenos, limits, seats);
    }
  }

  /** `[desc[0].lower() for desc in cursor.description]`. */
  function LowerNames(names: seq<string>): (r: seq<string>)
    ensures |r| == |names|
    ensures forall k :: 0 <= k < |r| ==> |r[k]| == |names[k]|
    ensures forall k, j :: 0 <= k < |r| && 0 <= j < |r[k]|
              ==> !Table.IsUpper(r[k][j]) && Table.Upper(r[k][j]) == Table.Upper(names[k][j])
    ensures forall k, j :: 0 <= k < |r| && 0 <= j < |r[k]| && !Table.IsCased(names[k][j])
              ==> r[k][j] == names[k][j]
  {
    seq(|names|, k requires 0 <= k < |names| => seq(|names[k]|, j requires 0 <= j < |names[k]| => Table.Lower(names[k][j])))
  }
}
