/** Reconstruction of each year's S&P 500 constituents from today's list and the table of
    index changes (sp500_history/sp500_historical_components.py). The walk goes backwards
    in time: undoing a change means dropping the ticker that was added and restoring the
    one that was removed. */
module Sp500Components {
  import opened Common
  import opened Strings
  import Sorting

  // ---------------------------------------------------------------------------
  // Change records and the backward walk

  /** One row of the changes table. `date` is a day number and `year` its calendar year;
      an absent entry is None (pandas NaN). */
  datatype Change = Change(date: int, year: int, added: Option<string>, removed: Option<string>)

  /** `pd.notna(x) and x`: present and not the empty string. */
  predicate Present(x: Option<string>)
  {
    x.Some? && x.value != ""
  }

  /** Undoing one change: discard the added ticker, then add back the removed one. */
  function UndoChange(s: set<string>, c: Change): (r: set<string>)
    ensures forall t :: t in r <==>
      (Present(c.removed) && t == c.removed.value) || (t in s && !(Present(c.added) && t == c.added.value))
  {
    var withoutAdded := if Present(c.added) then s - {c.added.value} else s;
    if Present(c.removed) then withoutAdded + {c.removed.value} else withoutAdded
  }

  /** A change with no usable entries leaves the set as it is. */
  lemma UndoBlankChange(s: set<string>, c: Change)
    requires !Present(c.added) && !Present(c.removed)
    ensures UndoChange(s, c) == s
  {
  }

  /** Undoing a sequence of changes in order. */
  function UndoChanges(s: set<string>, cs: seq<Change>): set<string>
  {
    if cs == [] then s else UndoChange(UndoChanges(s, cs[..|cs| - 1]), cs[|cs| - 1])
  }

  predicate Mentions(c: Change, t: string)
  {
    (Present(c.added) && c.added.value == t) || (Present(c.removed) && c.removed.value == t)
  }

  /** A ticker that no change mentions keeps its membership. */
  lemma {:induction false} UndoChangesUntouched(s: set<string>, cs: seq<Change>, t: string)
    requires forall i :: 0 <= i < |cs| ==> !Mentions(cs[i], t)
    ensures t in UndoChanges(s, cs) <==> t in s
  {
    if cs != [] {
      UndoChangesUntouched(s, cs[..|cs| - 1], t);
    }
  }

  /** The last change that mentions a ticker decides its membership: in if it was the
      removed entry of that change, out if it was only the added one. */
  lemma {:induction false} UndoChangesLastMention(s: set<string>, cs: seq<Change>, t: string, k: nat)
    requires k < |cs| && Mentions(cs[k], t)
    requires forall i :: k < i < |cs| ==> !Mentions(cs[i], t)
    ensures t in UndoChanges(s, cs) <==> Present(cs[k].removed) && cs[k].removed.value == t
    decreases |cs|
  {
    if k < |cs| - 1 {
      UndoChangesLastMention(s, cs[..|cs| - 1], t, k);
    }
  }

  function DateKey(c: Change): real
  {
    c.date as real
  }

  /** `sort_values('Date', ascending=False)`: most recent first. */
  function MostRecentFirst(changes: seq<Change>): (r: seq<Change>)
    ensures multiset(r) == multiset(changes)
    ensures forall i, j :: 0 <= i < j < |r| ==> r[i].date >= r[j].date
  {
    Sorting.SortByKey(changes, DateKey, true)
  }

  function ChangesInYear(sorted: seq<Change>, year: int): seq<Change>
  {
    Filter(sorted, (c: Change) => c.year == year)
  }

  /** The constituents at the end of the walk's step for `year`: start from today's set,
      then, for each year from the current one down to `year`, undo that year's changes. */
  function Snapshot(current: set<string>, sorted: seq<Change>, currentYear: int, year: int): set<string>
    requires year <= currentYear
    decreases currentYear - year
  {
    var later := if year == currentYear then current else Snapshot(current, sorted, currentYear, year + 1);
    UndoChanges(later, ChangesInYear(sorted, year))
  }

  /** A ticker that no change of years `year`..`currentYear` mentions has today's
      membership in that year's snapshot. */
  lemma {:induction false} SnapshotUntouched(current: set<string>, sorted: seq<Change>, currentYear: int, year: int, t: string)
    requires year <= currentYear
    requires forall i :: 0 <= i < |sorted| && year <= sorted[i].year <= currentYear ==> !Mentions(sorted[i], t)
    ensures t in Snapshot(current, sorted, currentYear, year) <==> t in current
    decreases currentYear - year
  {
    var yc := ChangesInYear(sorted, year);
    forall i | 0 <= i < |yc| ensures !Mentions(yc[i], t) {
      var j :| 0 <= j < |sorted| && sorted[j] == yc[i];
    }
    UndoChangesUntouched(if year == currentYear then current else Snapshot(current, sorted, currentYear, year + 1), yc, t);
    if year < currentYear {
      SnapshotUntouched(current, sorted, currentYear, year + 1, t);
    }
  }

  // ---------------------------------------------------------------------------
  // Sorted lists of tickers

  /** Every non-empty finite set of strings has a least element. */
  lemma {:induction false} SetLeast(s: set<string>) returns (least: string)
    requires s != {}
    ensures least in s && forall y :: y in s ==> StrLe(least, y)
    decreases |s|
  {
    var x :| x in s;
    StrLeTotal(x, x);
    if s == {x} {
      least := x;
    } else {
      var m := SetLeast(s - {x});
      StrLeTotal(x, m);
      if StrLe(x, m) {
        forall y | y in s ensures StrLe(x, y) {
          if y != x { StrLeTransitive(x, m, y); }
        }
        least := x;
      } else {
        least := m;
      }
    }
  }

  function SetOf(symbols: seq<string>): set<string>
  {
    set t | t in symbols
  }

  /** `sorted(list(companies))`: the set's tickers in ascending order, each once. */
  method SortedList(s: set<string>) returns (r: seq<string>)
    ensures StrictlyAscending(r)
    ensures SetOf(r) == s
    ensures |r| == |s|
  {
    r := [];
    var rest := s;
    while rest != {}
      invariant rest <= s
      invariant forall t :: t in s <==> t in r || t in rest
      invariant forall t :: t in r ==> t !in rest
      invariant StrictlyAscending(r)
      invariant forall i, t :: 0 <= i < |r| && t in rest ==> StrLe(r[i], t)
      invariant |r| + |rest| == |s|
      decreases |rest|
    {
      ghost var least := SetLeast(rest);
      var x :| x in rest && forall y :: y in rest ==> StrLe(x, y);
      r := r + [x];
      rest := rest - {x};
    }
    assert forall t :: t in SetOf(r) <==> t in s;
  }

  // ---------------------------------------------------------------------------
  // process_historical_data

  /** The inner loop of the walk: one year's changes, undone in order on the set. */
  method UndoYearChanges(companies0: set<string>, yearChanges: seq<Change>) returns (companies: set<string>)
    ensures companies == UndoChanges(companies0, yearChanges)
  {
    companies := companies0;
    var i := 0;
    while i < |yearChanges|
      invariant 0 <= i <= |yearChanges|
      invariant companies == UndoChanges(companies0, yearChanges[..i])
    {
      var change := yearChanges[i];
      if Present(change.added) {
        companies := companies - {change.added.value};
      }
      if Present(change.removed) {
        companies := companies + {change.removed.value};
      }
      assert yearChanges[..i + 1][..i] == yearChanges[..i];
      i := i + 1;
    }
    assert yearChanges[..i] == yearChanges;
  }

  /** One step of the year loop: undo the year's changes, then list the set sorted. */
  method WalkYear(companies: set<string>, sorted: seq<Change>, year: int) returns (next: set<string>, snapshot: seq<string>)
    ensures next == UndoChanges(companies, ChangesInYear(sorted, year))
    ensures StrictlyAscending(snapshot) && forall t :: t in snapshot <==> t in next
  {
    var yearChanges := Filter(sorted, (c: Change) => c.year == year);
    next := UndoYearChanges(companies, yearChanges);
    snapshot := SortedList(next);
  }

  /** One snapshot per year from the current year down to 2000, each a sorted duplicate-free
      list whose tickers are exactly those of the backward walk at that year. */
  method ProcessHistoricalData(currentSymbols: seq<string>, changes: seq<Change>, currentYear: int)
    returns (historical: map<int, seq<string>>)
    ensures forall y :: y in historical <==> 2000 <= y <= currentYear
    ensures forall y :: y in historical ==>
      StrictlyAscending(historical[y]) &&
      forall t :: t in historical[y] <==> t in Snapshot(SetOf(currentSymbols), MostRecentFirst(changes), currentYear, y)
  {
    var sorted := MostRecentFirst(changes);
    ghost var current := SetOf(currentSymbols);
    var companies := set t | t in currentSymbols;
    historical := map[];
    ghost var snaps: map<int, set<string>> := map[];
    var year := currentYear;
    while year >= 2000
      invariant year <= currentYear
      invariant companies == if year == currentYear then current else Snapshot(current, sorted, currentYear, year + 1)
      invariant forall y :: y in historical <==> year < y <= currentYear && y >= 2000
      invariant forall y :: y in snaps <==> y in historical
      invariant forall y :: y in snaps ==> y <= currentYear && snaps[y] == Snapshot(current, sorted, currentYear, y)
      invariant forall y :: y in historical ==> StrictlyAscending(historical[y])
      invariant forall y, t :: y in historical && t in historical[y] ==> t in snaps[y]
      invariant forall y, t :: y in snaps && t in snaps[y] ==> t in historical[y]
      decreases year
    {
      var snapshot;
      companies, snapshot := WalkYear(companies, sorted, year);
      historical := historical[year := snapshot];
      snaps := snaps[year := companies];
      year := year - 1;
    }
    SnapshotsListed(historical, snaps, current, sorted, currentYear);
  }

  lemma SnapshotsListed(historical: map<int, seq<string>>, snaps: map<int, set<string>>,
                        current: set<string>, sorted: seq<Change>, currentYear: int)
    requires forall y :: y in snaps <==> y in historical
    requires forall y :: y in snaps ==> y <= currentYear && snaps[y] == Snapshot(current, sorted, currentYear, y)
    requires forall y, t :: y in historical && t in historical[y] ==> t in snaps[y]
    requires forall y, t :: y in snaps && t in snaps[y] ==> t in historical[y]
    ensures forall y :: y in historical ==>
              y <= currentYear && forall t :: t in historical[y] <==> t in Snapshot(current, sorted, currentYear, y)
  {
  }

  // ---------------------------------------------------------------------------
  // Company-name to ticker resolution (inside get_historical_changes)

  /** The current-constituents table: each row with at least two cells maps its company
      (cell 1) to its ticker (cell 0); a later row overrides an earlier one. */
  function CurrentTableMap(rows: seq<seq<string>>): (m: map<string, string>)
    ensures forall c :: c in m <==> exists i :: 0 <= i < |rows| && |rows[i]| >= 2 && rows[i][1] == c
  {
    if rows == [] then map[]
    else
      var m := CurrentTableMap(rows[..|rows| - 1]);
      var row := rows[|rows| - 1];
      assert forall i :: 0 <= i < |rows| - 1 ==> rows[i] == rows[..|rows| - 1][i];
      if |row| >= 2 then m[row[1] := row[0]] else m
  }

  /** The ticker of a company is that of the last row naming it. */
  lemma {:induction false} CurrentTableMapLastWins(rows: seq<seq<string>>, k: nat)
    requires k < |rows| && |rows[k]| >= 2
    requires forall i :: k < i < |rows| && |rows[i]| >= 2 ==> rows[i][1] != rows[k][1]
    ensures CurrentTableMap(rows)[rows[k][1]] == rows[k][0]
  {
    if k < |rows| - 1 {
      var init := rows[..|rows| - 1];
      assert init[k] == rows[k];
      CurrentTableMapLastWins(init, k);
    }
  }

  /** Builds the map with a loop over the current table. */
  method BuildCompanyToTicker(rows: seq<seq<string>>) returns (m: map<string, string>)
    ensures m == CurrentTableMap(rows)
  {
    m := map[];
    var i := 0;
    while i < |rows|
      invariant 0 <= i <= |rows|
      invariant m == CurrentTableMap(rows[..i])
    {
      var cells := rows[i];
      if |cells| >= 2 {
        m := m[cells[1] := cells[0]];
      }
      assert rows[..i + 1][..i] == rows[..i];
      i := i + 1;
    }
    assert rows[..i] == rows;
  }

  /** Extra (ticker, company) pairs in cells 4, 5, 6, ... of a change row extend the map
      when both are non-empty. */
  function AddPairs(cells: seq<string>, i: nat, m: map<string, string>): (r: map<string, string>)
    ensures forall c :: c in m ==> c in r
    ensures forall c :: c in r && (c !in m || r[c] != m[c]) ==>
      exists j :: i <= j && j + 1 < |cells| && cells[j + 1] == c && cells[j] == r[c] && cells[j] != ""
    decreases |cells| - i
  {
    if i + 1 < |cells| then
      var ticker := cells[i];
      var company := cells[i + 1];
      var next := if ticker != "" && company != "" then m[company := ticker] else m;
      AddPairs(cells, i + 2, next)
    else m
  }

  /** An Added/Removed entry with a space is a company name, looked up in the map ('' when
      missing); anything else is already a ticker. */
  function ResolveTicker(entry: string, companyToTicker: map<string, string>): (r: string)
    ensures !ContainsChar(entry, ' ') ==> r == entry
    ensures ContainsChar(entry, ' ') && entry !in companyToTicker ==> r == ""
    ensures ContainsChar(entry, ' ') && entry in companyToTicker ==> r == companyToTicker[entry]
  {
    if ContainsChar(entry, ' ') then
      if entry in companyToTicker then companyToTicker[entry] else ""
    else entry
  }

  /** A parsed change date: day number and calendar year. */
  datatype ChangeDate = ChangeDate(day: int, year: int)

  /** The change of one row with at least three cells, or None when its date does not
      parse (the row is skipped). */
  function RowChange(cells: seq<string>, m: map<string, string>, parseDate: string -> Option<ChangeDate>): Option<Change>
    requires |cells| >= 3
  {
    var date := parseDate(cells[0]);
    if date.None? then None
    else Some(Change(date.value.day, date.value.year,
                     Some(ResolveTicker(cells[1], m)), Some(ResolveTicker(cells[2], m))))
  }

  function Prepend(acc: seq<Change>, rest: Option<seq<Change>>): Option<seq<Change>>
  {
    if rest.None? then None else Some(acc + rest.value)
  }

  /** The change rows processed in order, the map growing as rows supply extra pairs. A
      non-empty row with fewer than three cells raises IndexError (None). */
  function ChangeRows(rows: seq<seq<string>>, m: map<string, string>, parseDate: string -> Option<ChangeDate>): Option<seq<Change>>
    decreases |rows|
  {
    if rows == [] then Some([])
    else
      var cells := rows[0];
      if cells == [] then ChangeRows(rows[1..], m, parseDate)
      else if |cells| < 3 then None
      else
        var next := AddPairs(cells, 4, m);
        var c := RowChange(cells, next, parseDate);
        Prepend(if c.Some? then [c.value] else [], ChangeRows(rows[1..], next, parseDate))
  }

  lemma PrependNothing(r: Option<seq<Change>>)
    ensures Prepend([], r) == r
    ensures r.Some? ==> Prepend(r.value, Some([])) == r
  {
    if r.Some? {
      assert [] + r.value == r.value && r.value + [] == r.value;
    }
  }

  lemma PrependAssoc(a: seq<Change>, b: seq<Change>, r: Option<seq<Change>>)
    ensures Prepend(a, Prepend(b, r)) == Prepend(a + b, r)
  {
    if r.Some? {
      assert a + (b + r.value) == (a + b) + r.value;
    }
  }

  /** `get_historical_changes` after the page is fetched: None when a row is too short or
      no row has a parsable date (pandas then has no Date column). */
  method GetHistoricalChanges(currentRows: seq<seq<string>>, changeRows: seq<seq<string>>,
                              parseDate: string -> Option<ChangeDate>)
    returns (r: Option<seq<Change>>)
    ensures var all := ChangeRows(changeRows, CurrentTableMap(currentRows), parseDate);
      r == if all.None? || all.value == [] then None else all
  {
    var companyToTicker := BuildCompanyToTicker(currentRows);
    var rows: seq<Change> := [];
    var i := 0;
    assert changeRows[0..] == changeRows;
    PrependNothing(ChangeRows(changeRows, companyToTicker, parseDate));
    while i < |changeRows|
      invariant 0 <= i <= |changeRows|
      invariant ChangeRows(changeRows, CurrentTableMap(currentRows), parseDate)
                == Prepend(rows, ChangeRows(changeRows[i..], companyToTicker, parseDate))
    {
      var cells := changeRows[i];
      assert changeRows[i..][0] == cells && changeRows[i..][1..] == changeRows[i + 1..];
      if cells != [] {
        if |cells| < 3 {
          return None;
        }
        ghost var rowStart := companyToTicker;
        // Extra (ticker, company) pairs from cell 4 on.
        var j := 4;
        while j + 1 < |cells|
          invariant 4 <= j
          invariant AddPairs(cells, 4, rowStart) == AddPairs(cells, j, companyToTicker)
          decreases |cells| - j
        {
          if cells[j] != "" && cells[j + 1] != "" {
            companyToTicker := companyToTicker[cells[j + 1] := cells[j]];
          }
          j := j + 2;
        }
        assert companyToTicker == AddPairs(cells, 4, rowStart);
        var added := ResolveTicker(cells[1], companyToTicker);
        var removed := ResolveTicker(cells[2], companyToTicker);
        var date := parseDate(cells[0]);
        var produced: seq<Change> := [];
        if date.Some? {
          produced := [Change(date.value.day, date.value.year, Some(added), Some(removed))];
        }
        assert produced == var c := RowChange(cells, companyToTicker, parseDate); if c.Some? then [c.value] else [];
        PrependAssoc(rows, produced, ChangeRows(changeRows[i + 1..], companyToTicker, parseDate));
        rows := rows + produced;
      }
      i := i + 1;
    }
    PrependNothing(Some(rows));
    assert changeRows[i..] == [];
    if rows == [] {
      return None;
    }
    r := Some(rows);
  }

  // ---------------------------------------------------------------------------
  // check_company_in_year

  /** Membership query: None when the data file cannot be read or has no entry for the
      year, otherwise whether the ticker is listed. */
  function CheckCompanyInYear(data: Option<map<int, seq<string>>>, symbol: string, year: int): (r: Option<bool>)
    ensures r.None? <==> data.None? || year !in data.value
    ensures r.Some? ==> (r.value <==> symbol in data.value[year])
  {
    if data.None? || year !in data.value then None
    else Some(symbol in data.value[year])
  }

  /** On reconstructed data, the query answers from the backward walk for every year from
      2000 to the current one, and None for any other year. */
  lemma QueryMatchesWalk(historical: map<int, seq<string>>, current: set<string>, sorted: seq<Change>,
                         currentYear: int, symbol: string, year: int)
    requires forall y :: y in historical <==> 2000 <= y <= currentYear
    requires forall y :: y in historical ==>
               forall t :: t in historical[y] <==> t in Snapshot(current, sorted, currentYear, y)
    ensures CheckCompanyInYear(Some(historical), symbol, year) ==
      if 2000 <= year <= currentYear then Some(symbol in Snapshot(current, sorted, currentYear, year)) else None
  {
  }
}
