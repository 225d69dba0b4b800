/** The members of one audience, a page at a time: a scan of raw rows that leaves the expired ones out. */
module AudienceScan {
  import opened Results
  import opened Text
  import opened AudienceCache

  /** How many pages' worth of raw rows one call reads before it gives up. */
  const SCAN_MULTIPLIER: nat := 10
  const DEFAULT_PAGE_SIZE: nat := 1_000

  /** One raw row of one audience, as a page of them is read. */
  datatype Line = Line(member: string, row: Row)

  datatype MembersPage = MembersPage(members: seq<string>, cursor: Option<string>, truncated: bool)

  predicate Past(after: Option<string>, member: string)
  {
    after.None? || Before(after.value, member)
  }

  predicate Ascending(lines: seq<Line>)
  {
    forall i, j | 0 <= i < j < |lines| :: Before(lines[i].member, lines[j].member)
  }

  predicate Live(line: Line, now: int)
  {
    !HasExpired(line.row, now)
  }

  /** The rows the query keeps: those past `after`, all of them without one. */
  function Beyond(lines: seq<Line>, after: Option<string>): seq<Line>
  {
    if lines == [] then []
    else (if Past(after, lines[0].member) then [lines[0]] else []) + Beyond(lines[1..], after)
  }

  function Smaller(a: nat, b: nat): nat
  {
    if a < b then a else b
  }

  /** One raw read: the first `limit` rows past `after`, whether or not they still count. */
  function RawPage(lines: seq<Line>, after: Option<string>, limit: nat): seq<Line>
  {
    var found := Beyond(lines, after);
    found[..Smaller(limit, |found|)]
  }

  /** The members of `lines` that still count, in the order they stand. */
  function LiveMembers(lines: seq<Line>, now: int): (r: seq<string>)
    ensures |r| <= |lines|
  {
    if lines == [] then []
    else
      var last := |lines| - 1;
      LiveMembers(lines[..last], now) + if Live(lines[last], now) then [lines[last].member] else []
  }

  /** How many of `lines` a reader goes through to meet `count` live ones, all of them when there are fewer. */
  function UpTo(lines: seq<Line>, now: int, count: nat): (n: nat)
    ensures n <= |lines|
  {
    if lines == [] || |LiveMembers(lines[..|lines| - 1], now)| < count then |lines|
    else UpTo(lines[..|lines| - 1], now, count)
  }

  /** Whether the scan runs out of rows before a full raw page fills the quota. */
  predicate RunsOut(found: seq<Line>, now: int, limit: nat)
    requires limit > 0
  {
    |found| < ScanCap(limit) && |LiveMembers(found[..WholePages(|found|, limit)], now)| < limit
  }

  /** How many of `count` rows stand in raw pages that came back full. */
  function WholePages(count: nat, limit: nat): (n: nat)
    requires limit > 0
    ensures n <= count < n + limit
  {
    if count < limit then 0 else limit + WholePages(count - limit, limit)
  }

  /** How many raw rows one call is willing to read. */
  function ScanCap(limit: int): (n: int)
    ensures n == 10 * limit
  {
    limit * SCAN_MULTIPLIER
  }

  /** How many of `found` one call goes through. */
  function Consumed(found: seq<Line>, now: int, limit: nat): (n: nat)
    ensures n <= |found|
  {
    Smaller(UpTo(found, now, limit), ScanCap(limit))
  }

  /** Whether the scan gives up, or fills its quota only in the last page it is willing to read. */
  predicate ReadsTenPages(found: seq<Line>, now: int, limit: nat)
  {
    ScanCap(limit) <= |found| && |LiveMembers(found[..ScanCap(limit) - limit], now)| < limit
  }

  /** What one call answers, said of the rows past `after` at once rather than read by read. */
  function PageOf(lines: seq<Line>, now: int, after: Option<string>, limit: int): MembersPage
  {
    if limit <= 0 then MembersPage([], after, false)
    else
      var found := Beyond(lines, after);
      var read := Consumed(found, now, limit);
      MembersPage(LiveMembers(found[..read], now),
                  if RunsOut(found, now, limit) || read == 0 then None else Some(found[read - 1].member),
                  ReadsTenPages(found, now, limit))
  }

  // --------------------------------------------------------------- the query

  lemma {:induction false} AllBeyond(lines: seq<Line>, after: Option<string>)
    requires forall l <- lines :: Past(after, l.member)
    ensures Beyond(lines, after) == lines
  {
    if lines != [] {
      AllBeyond(lines[1..], after);
      assert lines == [lines[0]] + lines[1..];
    }
  }

  /** What lies past a mark, once the first row does. */
  lemma PastFromTheStart(lines: seq<Line>, after: Option<string>)
    requires Ascending(lines) && lines != [] && Past(after, lines[0].member)
    ensures Beyond(lines, after) == lines && forall l <- lines :: Past(after, l.member)
  {
    forall i | 0 < i < |lines|
      ensures Past(after, lines[i].member)
    {
      if after.Some? {
        BeforeTransitive(after.value, lines[0].member, lines[i].member);
      }
    }
    AllBeyond(lines, after);
  }

  /** In a sorted table the rows past a mark are the rest of it. */
  lemma {:induction false} BeyondIsTheRest(lines: seq<Line>, after: Option<string>)
    requires Ascending(lines)
    ensures |Beyond(lines, after)| <= |lines|
    ensures Beyond(lines, after) == lines[|lines| - |Beyond(lines, after)|..]
    ensures Ascending(Beyond(lines, after))
    ensures forall l <- lines :: l in Beyond(lines, after) <==> Past(after, l.member)
  {
    if lines != [] {
      if Past(after, lines[0].member) {
        PastFromTheStart(lines, after);
      } else {
        BeyondIsTheRest(lines[1..], after);
        DropTwice(lines, 1, |lines| - 1 - |Beyond(lines[1..], after)|);
        assert lines == [lines[0]] + lines[1..];
        forall l <- Beyond(lines[1..], after)
          ensures Past(after, l.member)
        {
          assert l in lines[1..];
        }
      }
    }
  }

  lemma {:induction false} BeyondOne(lines: seq<Line>, i: nat)
    requires Ascending(lines) && i < |lines|
    ensures Beyond(lines, Some(lines[i].member)) == lines[i + 1..]
  {
    var mark := Some(lines[i].member);
    if i == 0 {
      BeforeIrreflexive(lines[0].member);
      AllBeyond(lines[1..], mark);
    } else {
      if Before(lines[i].member, lines[0].member) {
        BeforeTransitive(lines[0].member, lines[i].member, lines[0].member);
        BeforeIrreflexive(lines[0].member);
        assert false;
      }
      BeyondOne(lines[1..], i - 1);
    }
  }

  lemma DropTwice(lines: seq<Line>, k: nat, i: nat)
    requires k + i <= |lines|
    ensures lines[k..][i..] == lines[k + i..]
  {
  }

  lemma BeyondInTheRest(lines: seq<Line>, k: nat, i: nat)
    requires Ascending(lines) && k + i < |lines|
    ensures Beyond(lines, Some(lines[k..][i].member)) == lines[k..][i + 1..]
  {
    BeyondOne(lines, k + i);
    DropTwice(lines, k, i + 1);
    assert lines[k..][i] == lines[k + i];
  }

  /** A scan that goes on from a row it met goes on right after that row. */
  lemma GoesOnAfter(lines: seq<Line>, after: Option<string>, i: nat)
    requires Ascending(lines) && i < |Beyond(lines, after)|
    ensures Beyond(lines, Some(Beyond(lines, after)[i].member)) == Beyond(lines, after)[i + 1..]
  {
    var found := Beyond(lines, after);
    BeyondIsTheRest(lines, after);
    BeyondInTheRest(lines, |lines| - |found|, i);
  }

  // ------------------------------------------------------------ live members

  lemma {:induction false} LiveOfAPrefix(lines: seq<Line>, now: int, i: nat, j: nat)
    requires i <= j <= |lines|
    ensures LiveMembers(lines[..i], now) <= LiveMembers(lines[..j], now)
    decreases j
  {
    if i < j {
      LiveOfAPrefix(lines, now, i, j - 1);
      assert lines[..j][..j - 1] == lines[..j - 1];
    }
  }

  lemma LiveOfOneMore(lines: seq<Line>, now: int, i: nat)
    requires i < |lines|
    ensures LiveMembers(lines[..i + 1], now)
            == LiveMembers(lines[..i], now) + if Live(lines[i], now) then [lines[i].member] else []
  {
    assert lines[..i + 1][..i] == lines[..i];
  }

  /** The live members of some rows are exactly those of its live rows. */
  lemma {:induction false} LiveMembersAreTheLiveOnes(lines: seq<Line>, now: int)
    ensures forall m :: m in LiveMembers(lines, now) <==> exists l <- lines :: l.member == m && Live(l, now)
  {
    if lines != [] {
      var last := |lines| - 1;
      LiveMembersAreTheLiveOnes(lines[..last], now);
      assert lines == lines[..last] + [lines[last]];
    }
  }

  ghost predicate Sorted(members: seq<string>)
  {
    forall i, j | 0 <= i < j < |members| :: Before(members[i], members[j])
  }

  /** The live members of sorted rows stand in strictly ascending order. */
  lemma {:induction false} LiveMembersAscend(lines: seq<Line>, now: int)
    requires Ascending(lines)
    ensures Sorted(LiveMembers(lines, now))
  {
    if lines != [] {
      var last := |lines| - 1;
      var front := LiveMembers(lines[..last], now);
      LiveMembersAscend(lines[..last], now);
      LiveMembersAreTheLiveOnes(lines[..last], now);
      forall m <- front
        ensures Before(m, lines[last].member)
      {
        var k :| 0 <= k < last && lines[..last][k].member == m;
        assert lines[k].member == m;
      }
      AppendKeepsSorted(front, lines[last].member);
    }
  }

  lemma AppendKeepsSorted(members: seq<string>, m: string)
    requires Sorted(members) && forall k <- members :: Before(k, m)
    ensures Sorted(members + [m])
  {
    var r := members + [m];
    forall i, j | 0 <= i < j < |r|
      ensures Before(r[i], r[j])
    {
      assert r[i] in members;
    }
  }

  /** Reading on to the row that fills the quota is reading `UpTo` it. */
  lemma {:induction false} UpToIs(lines: seq<Line>, now: int, count: nat, n: nat)
    requires 0 < n <= |lines|
    requires |LiveMembers(lines[..n], now)| == count && |LiveMembers(lines[..n - 1], now)| < count
    ensures UpTo(lines, now, count) == n
    decreases |lines|
  {
    if n < |lines| {
      var front := lines[..|lines| - 1];
      LiveOfAPrefix(lines, now, n, |lines| - 1);
      assert front[..n] == lines[..n] && front[..n - 1] == lines[..n - 1];
      UpToIs(front, now, count, n);
    }
  }

  lemma {:induction false} UpToCounts(lines: seq<Line>, now: int, count: nat)
    requires count > 0
    ensures var n := UpTo(lines, now, count);
            && |LiveMembers(lines[..n], now)| == Smaller(count, |LiveMembers(lines, now)|)
            && (|LiveMembers(lines, now)| < count ==> n == |lines|)
            && (forall i | 0 <= i < n :: |LiveMembers(lines[..i], now)| < count)
  {
    if lines != [] {
      var last := |lines| - 1;
      assert lines[..|lines|] == lines;
      if |LiveMembers(lines[..last], now)| < count {
        forall i | 0 <= i < |lines|
          ensures |LiveMembers(lines[..i], now)| < count
        {
          LiveOfAPrefix(lines, now, i, last);
        }
      } else {
        UpToCounts(lines[..last], now, count);
        var n := UpTo(lines, now, count);
        assert lines[..last][..n] == lines[..n];
        forall i | 0 <= i < n
          ensures |LiveMembers(lines[..i], now)| < count
        {
          assert lines[..last][..i] == lines[..i];
        }
      }
    }
  }

  // ---------------------------------------------------------------- the scan

  /** What a reader of `found` holds after each row of it. */
  ghost predicate Tally(found: seq<Line>, now: int, tally: seq<seq<string>>)
  {
    && |tally| == |found| + 1 && tally[0] == []
    && forall i {:trigger found[i]} | 0 <= i < |found| :: tally[i + 1] == tally[i] + if Live(found[i], now) then [found[i].member] else []
  }

  lemma {:induction false} TallyOf(found: seq<Line>, now: int) returns (tally: seq<seq<string>>)
    ensures Tally(found, now, tally)
  {
    if found == [] {
      tally := [[]];
    } else {
      var last := |found| - 1;
      var front := TallyOf(found[..last], now);
      tally := front + [front[last] + if Live(found[last], now) then [found[last].member] else []];
      forall i | 0 <= i < |found|
        ensures tally[i + 1] == tally[i] + if Live(found[i], now) then [found[i].member] else []
      {
        assert i < last ==> found[..last][i] == found[i];
      }
    }
  }

  lemma {:induction false} TallyIs(found: seq<Line>, now: int, tally: seq<seq<string>>, i: nat)
    requires Tally(found, now, tally) && i <= |found|
    ensures tally[i] == LiveMembers(found[..i], now)
  {
    if i > 0 {
      TallyIs(found, now, tally, i - 1);
      LiveOfOneMore(found, now, i - 1);
    }
  }

  /** How many rows stand in `pages` raw pages that came back full. */
  ghost function Rows(pages: nat, limit: nat): nat
  {
    if pages == 0 then 0 else limit + Rows(pages - 1, limit)
  }

  lemma {:induction false} MorePagesMoreRows(fewer: nat, more: nat, limit: nat)
    requires fewer <= more
    ensures Rows(fewer, limit) <= Rows(more, limit)
    decreases more
  {
    if fewer < more {
      MorePagesMoreRows(fewer, more - 1, limit);
    }
  }

  lemma RowsOfTenPages(pages: nat, limit: nat)
    ensures pages < SCAN_MULTIPLIER ==> Rows(pages, limit) <= ScanCap(limit) - limit
    ensures pages == SCAN_MULTIPLIER - 1 ==> Rows(pages, limit) == ScanCap(limit) - limit
  {
    assert Rows(1, limit) == limit && Rows(2, limit) == 2 * limit && Rows(3, limit) == 3 * limit;
    assert Rows(4, limit) == 4 * limit && Rows(5, limit) == 5 * limit && Rows(6, limit) == 6 * limit;
    assert Rows(7, limit) == 7 * limit && Rows(8, limit) == 8 * limit && Rows(9, limit) == 9 * limit;
    if pages < SCAN_MULTIPLIER {
      MorePagesMoreRows(pages, SCAN_MULTIPLIER - 1, limit);
    }
  }

  lemma {:induction false} WholePagesOf(count: nat, limit: nat, pages: nat)
    requires limit > 0 && Rows(pages, limit) <= count
    ensures Rows(pages, limit) <= WholePages(count, limit)
    ensures count < Rows(pages, limit) + limit ==> WholePages(count, limit) == Rows(pages, limit)
  {
    if pages > 0 {
      WholePagesOf(count - limit, limit, pages - 1);
    }
  }

  /** Whether row `done` is the one that fills the quota. */
  ghost predicate Fills(tally: seq<seq<string>>, limit: nat, done: nat)
  {
    0 < done < |tally| && |tally[done]| == limit && |tally[done - 1]| < limit
  }

  lemma FillsUpTo(found: seq<Line>, now: int, tally: seq<seq<string>>, limit: nat, done: nat)
    requires Tally(found, now, tally) && Fills(tally, limit, done)
    ensures UpTo(found, now, limit) == done
  {
    TallyIs(found, now, tally, done);
    TallyIs(found, now, tally, done - 1);
    UpToIs(found, now, limit, done);
  }

  /** The rows ran out inside the page that follows `pages` full ones. */
  lemma ShortPage(found: seq<Line>, now: int, limit: nat, tally: seq<seq<string>>, pages: nat, done: nat)
    requires Tally(found, now, tally)
    requires limit > 0 && EndsShort(tally, limit, pages, done)
    ensures RunsOut(found, now, limit) && Consumed(found, now, limit) == done && !ReadsTenPages(found, now, limit)
    ensures tally[done] == LiveMembers(found[..done], now)
  {
    WholePagesOf(|found|, limit, pages);
    RowsOfTenPages(pages, limit);
    TallyIs(found, now, tally, Rows(pages, limit));
    TallyIs(found, now, tally, done);
    if Fills(tally, limit, done) {
      FillsUpTo(found, now, tally, limit, done);
    } else {
      assert found[..done] == found;
      UpToCounts(found, now, limit);
    }
  }

  /** The scan gave up: ten full pages went by. */
  lemma LastPage(found: seq<Line>, now: int, limit: nat, tally: seq<seq<string>>, done: nat)
    requires Tally(found, now, tally)
    requires limit > 0 && EndsTenth(tally, limit, done)
    ensures !RunsOut(found, now, limit) && Consumed(found, now, limit) == done && ReadsTenPages(found, now, limit)
    ensures tally[done] == LiveMembers(found[..done], now)
  {
    TallyIs(found, now, tally, done);
    TallyIs(found, now, tally, ScanCap(limit) - limit);
    if Fills(tally, limit, done) {
      FillsUpTo(found, now, tally, limit, done);
    } else {
      UpToCounts(found, now, limit);
      if UpTo(found, now, limit) < done {
        assert found[..|found|] == found;
        LiveOfAPrefix(found, now, UpTo(found, now, limit), done);
      }
    }
  }

  /** The quota filled inside one of `pages` full pages, before the scan gave up. */
  lemma QuotaFilled(found: seq<Line>, now: int, limit: nat, tally: seq<seq<string>>, pages: nat, done: nat)
    requires Tally(found, now, tally)
    requires limit > 0 && EndsFull(tally, limit, pages, done)
    ensures !RunsOut(found, now, limit) && Consumed(found, now, limit) == done && !ReadsTenPages(found, now, limit)
    ensures tally[done] == LiveMembers(found[..done], now)
  {
    TallyIs(found, now, tally, done);
    FillsUpTo(found, now, tally, limit, done);
    WholePagesOf(|found|, limit, pages);
    RowsOfTenPages(pages, limit);
    LiveOfAPrefix(found, now, done, WholePages(|found|, limit));
    if ScanCap(limit) <= |found| {
      LiveOfAPrefix(found, now, done, ScanCap(limit) - limit);
    }
  }

  lemma RestOfRows(found: seq<Line>, done: nat, limit: nat)
    requires done <= |found|
    ensures found[done..][..Smaller(limit, |found[done..]|)] == found[done..done + Smaller(limit, |found| - done)]
  {
  }

  /** What a raw read from the cursor finds: the next rows of those past `after`. */
  lemma NextRows(lines: seq<Line>, after: Option<string>, done: nat, cursor: Option<string>, limit: nat)
    requires Ascending(lines) && done <= |Beyond(lines, after)|
    requires cursor == if done == 0 then after else Some(Beyond(lines, after)[done - 1].member)
    ensures var found := Beyond(lines, after);
            RawPage(lines, cursor, limit) == found[done..done + Smaller(limit, |found| - done)]
  {
    var found := Beyond(lines, after);
    if done > 0 {
      GoesOnAfter(lines, after, done - 1);
    } else {
      assert found[0..] == found;
    }
    assert Beyond(lines, cursor) == found[done..];
    RestOfRows(found, done, limit);
  }

  /** What a reader holds after one more row, which may be the one that fills the quota. */
  lemma TakesARow(found: seq<Line>, now: int, tally: seq<seq<string>>, limit: nat, done: nat, row: Line)
    requires Tally(found, now, tally) && done < |found| && row == found[done] && |tally[done]| < limit
    ensures tally[done + 1] == if HasExpired(row.row, now) then tally[done] else tally[done] + [row.member]
    ensures limit <= |tally[done + 1]| ==> Fills(tally, limit, done + 1)
  {
    assert tally[done + 1] == tally[done] + if Live(found[done], now) then [found[done].member] else [];
  }

  /** The rows of one raw page, gone through up to the one that fills the quota. */
  method ReadRows(rows: seq<Line>, now: int, limit: nat, held: seq<string>, from: Option<string>,
                  ghost found: seq<Line>, ghost tally: seq<seq<string>>, ghost start: nat)
    returns (collected: seq<string>, cursor: Option<string>, ghost done: nat)
    requires Tally(found, now, tally) && start + |rows| <= |found| && rows == found[start..start + |rows|]
    requires held == tally[start] && |held| < limit
    ensures start <= done <= start + |rows| && collected == tally[done]
    ensures cursor == if done == start then from else Some(found[done - 1].member)
    ensures (Fills(tally, limit, done) && start < done) || (done == start + |rows| && |collected| < limit)
  {
    collected, cursor, done := held, from, start;
    var i := 0;
    while i < |rows|
      invariant i <= |rows| && done == start + i
      invariant collected == tally[done] && |collected| < limit
      invariant cursor == if done == start then from else Some(found[done - 1].member)
    {
      TakesARow(found, now, tally, limit, done, rows[i]);
      cursor := Some(rows[i].member);
      if !HasExpired(rows[i].row, now) {
        collected := collected + [rows[i].member];
      }
      i, done := i + 1, done + 1;
      if limit <= |collected| {
        break;
      }
    }
  }

  /** One raw read from `cursor`, gone through up to the row that fills the quota; `size` is how many rows it brought. */
  method ReadPage(lines: seq<Line>, now: int, ghost after: Option<string>, from: Option<string>, limit: nat, held: seq<string>,
                  ghost tally: seq<seq<string>>, ghost start: nat)
    returns (collected: seq<string>, cursor: Option<string>, size: nat, ghost done: nat)
    requires Ascending(lines) && Tally(Beyond(lines, after), now, tally) && start < |tally|
    requires from == if start == 0 then after else Some(Beyond(lines, after)[start - 1].member)
    requires held == tally[start] && |held| < limit
    ensures size == Smaller(limit, |tally| - 1 - start)
    ensures start <= done <= start + size && collected == tally[done]
    ensures cursor == if done == 0 then after else Some(Beyond(lines, after)[done - 1].member)
    ensures (Fills(tally, limit, done) && start < done) || (done == start + size && |collected| < limit)
  {
    NextRows(lines, after, start, from, limit);
    var rows := RawPage(lines, from, limit);
    size := |rows|;
    collected, cursor, done := ReadRows(rows, now, limit, held, from, Beyond(lines, after), tally, start);
  }

  /** A scan of `pages` full raw pages ended inside the short one that follows them. */
  ghost predicate EndsShort(tally: seq<seq<string>>, limit: nat, pages: nat, done: nat)
  {
    && pages < SCAN_MULTIPLIER && Rows(pages, limit) < |tally| <= Rows(pages, limit) + limit && done < |tally|
    && |tally[Rows(pages, limit)]| < limit
    && (Fills(tally, limit, done) || (done == |tally| - 1 && |tally[done]| < limit))
  }

  /** A scan ended at the tenth full raw page. */
  ghost predicate EndsTenth(tally: seq<seq<string>>, limit: nat, done: nat)
    requires limit > 0
  {
    && ScanCap(limit) < |tally| && 0 < done <= ScanCap(limit)
    && |tally[ScanCap(limit) - limit]| < limit
    && (Fills(tally, limit, done) || (done == ScanCap(limit) && |tally[done]| < limit))
  }

  /** A scan filled its quota in one of `pages` full raw pages. */
  ghost predicate EndsFull(tally: seq<seq<string>>, limit: nat, pages: nat, done: nat)
  {
    && 0 < pages < SCAN_MULTIPLIER && Rows(pages, limit) < |tally|
    && Fills(tally, limit, done) && done <= Rows(pages, limit)
  }

  /** Where a scan stands between two raw reads; `fetches` of them brought `scanned` rows. */
  datatype Progress = Progress(collected: seq<string>, cursor: Option<string>, scanned: nat)

  ghost predicate Between(p: Progress, limit: nat, tally: seq<seq<string>>, fetches: nat, done: nat)
  {
    && done < |tally| && p.collected == tally[done]
    && fetches < SCAN_MULTIPLIER && p.scanned == Rows(fetches, limit) < |tally|
    && if |p.collected| < limit then done == p.scanned else EndsFull(tally, limit, fetches, done)
  }

  /** Whether `page` is how a scan ends on its raw read `fetches`, without filling its quota before. */
  ghost predicate Ends(page: MembersPage, tally: seq<seq<string>>, limit: nat, fetches: nat, done: nat)
    requires limit > 0
  {
    && 0 < fetches <= SCAN_MULTIPLIER && done < |tally| && page.members == tally[done]
    && if page.cursor.None? then EndsShort(tally, limit, fetches - 1, done) && !page.truncated
       else page.truncated && EndsTenth(tally, limit, done)
  }

  /** One turn of the scan: a raw read, and whether it was the last one. */
  method Turn(lines: seq<Line>, now: int, ghost after: Option<string>, limit: nat, ghost tally: seq<seq<string>>, was: Progress,
              ghost fetched: nat, ghost start: nat)
    returns (p: Progress, page: Option<MembersPage>, ghost done: nat)
    requires limit > 0 && Ascending(lines) && Tally(Beyond(lines, after), now, tally)
    requires Between(was, limit, tally, fetched, start) && |was.collected| < limit
    requires was.cursor == if start == 0 then after else Some(Beyond(lines, after)[start - 1].member)
    ensures done < |tally| && p.cursor == if done == 0 then after else Some(Beyond(lines, after)[done - 1].member)
    ensures if page.None? then Between(p, limit, tally, fetched + 1, done)
            else Ends(page.value, tally, limit, fetched + 1, done) && (page.value.cursor.Some? ==> page.value.cursor == p.cursor)
  {
    var collected, cursor, size;
    collected, cursor, size, done := ReadPage(lines, now, after, was.cursor, limit, was.collected, tally, start);
    p := Progress(collected, cursor, was.scanned + size);
    if size == 0 || size < limit {
      return p, Some(MembersPage(collected, None, false)), done;
    }
    RowsOfTenPages(fetched, limit);
    page := if ScanCap(limit) <= p.scanned then Some(MembersPage(collected, cursor, true)) else None;
  }

  /** The scan itself: raw pages of `limit` rows, until the quota fills, the rows run out, or ten pages went by. */
  method Scan(lines: seq<Line>, now: int, after: Option<string>, limit: nat, ghost tally: seq<seq<string>>)
    returns (page: MembersPage, ghost fetches: nat, ghost done: nat)
    requires limit > 0 && Ascending(lines) && Tally(Beyond(lines, after), now, tally)
    ensures done < |tally| && page.members == tally[done] && fetches <= SCAN_MULTIPLIER
    ensures Ends(page, tally, limit, fetches, done)
            || (page.cursor.Some? && !page.truncated && EndsFull(tally, limit, fetches, done))
    ensures page.cursor.Some? ==> done > 0 && page.cursor == Some(Beyond(lines, after)[done - 1].member)
  {
    var p := Progress([], after, 0);
    fetches, done := 0, 0;
    while |p.collected| < limit
      invariant Between(p, limit, tally, fetches, done)
      invariant p.cursor == if done == 0 then after else Some(Beyond(lines, after)[done - 1].member)
      decreases SCAN_MULTIPLIER - fetches
    {
      var ended;
      p, ended, done := Turn(lines, now, after, limit, tally, p, fetches, done);
      fetches := fetches + 1;
      if ended.Some? {
        return ended.value, fetches, done;
      }
    }
    page := MembersPage(p.collected, p.cursor, false);
  }

  /** However a scan ends, what it answers is the page said of all the rows at once. */
  lemma ScanAnswersThePage(lines: seq<Line>, now: int, after: Option<string>, limit: nat, tally: seq<seq<string>>,
                           page: MembersPage, fetches: nat, done: nat)
    requires limit > 0 && Tally(Beyond(lines, after), now, tally) && done < |tally| && page.members == tally[done]
    requires Ends(page, tally, limit, fetches, done)
             || (page.cursor.Some? && !page.truncated && EndsFull(tally, limit, fetches, done))
    requires page.cursor.Some? ==> done > 0 && page.cursor == Some(Beyond(lines, after)[done - 1].member)
    ensures page == PageOf(lines, now, after, limit)
  {
    var found := Beyond(lines, after);
    if page.cursor.None? {
      ShortPage(found, now, limit, tally, fetches - 1, done);
    } else if page.truncated {
      LastPage(found, now, limit, tally, done);
    } else {
      QuotaFilled(found, now, limit, tally, fetches, done);
    }
    assert PageOf(lines, now, after, limit).members == tally[done];
  }

  /** One page of the live members of an audience; `fetches` counts the raw reads it took. */
  method MembersOf(lines: seq<Line>, now: int, after: Option<string>, asked: Option<int>)
    returns (page: MembersPage, ghost fetches: nat)
    requires Ascending(lines)
    ensures page == PageOf(lines, now, after, if asked.Some? then asked.value else DEFAULT_PAGE_SIZE)
    ensures fetches <= SCAN_MULTIPLIER
  {
    var limit := if asked.Some? then asked.value else DEFAULT_PAGE_SIZE;
    if limit <= 0 {
      return MembersPage([], after, false), 0;
    }
    ghost var tally := TallyOf(Beyond(lines, after), now);
    ghost var done;
    page, fetches, done := Scan(lines, now, after, limit, tally);
    ScanAnswersThePage(lines, now, after, limit, tally, page, fetches, done);
  }

  // ------------------------------------------------------ what a page answers

  ghost predicate LiveBeyond(lines: seq<Line>, now: int, after: Option<string>, m: string)
  {
    Past(after, m) && exists l <- lines :: l.member == m && Live(l, now)
  }

  predicate UpThrough(m: string, cursor: string)
  {
    m == cursor || Before(m, cursor)
  }

  /** Whether the page holds every live member past `after`. */
  ghost predicate Complete(lines: seq<Line>, now: int, after: Option<string>, page: MembersPage)
  {
    forall m :: LiveBeyond(lines, now, after, m) ==> m in page.members
  }

  lemma LiveBeyondIs(lines: seq<Line>, now: int, after: Option<string>)
    requires Ascending(lines)
    ensures Sorted(LiveMembers(Beyond(lines, after), now))
    ensures forall m :: m in LiveMembers(Beyond(lines, after), now) <==> LiveBeyond(lines, now, after, m)
  {
    var found := Beyond(lines, after);
    BeyondIsTheRest(lines, after);
    LiveMembersAscend(found, now);
    LiveMembersAreTheLiveOnes(found, now);
    forall m | LiveBeyond(lines, now, after, m)
      ensures m in LiveMembers(found, now)
    {
      var l :| l in lines && l.member == m && Live(l, now);
      assert l in found;
    }
    forall m <- LiveMembers(found, now)
      ensures LiveBeyond(lines, now, after, m)
    {
      var l :| l in found && l.member == m && Live(l, now);
      assert l in lines;
    }
  }

  /** The rows gone through are those up to the last of them. */
  lemma UpThroughIs(found: seq<Line>, n: nat)
    requires Ascending(found) && 0 < n <= |found|
    ensures forall l <- found :: l in found[..n] <==> UpThrough(l.member, found[n - 1].member)
  {
    forall i | 0 <= i < |found|
      ensures i < n <==> UpThrough(found[i].member, found[n - 1].member)
    {
      if n - 1 < i {
        if UpThrough(found[i].member, found[n - 1].member) && Before(found[i].member, found[n - 1].member) {
          BeforeTransitive(found[n - 1].member, found[i].member, found[n - 1].member);
        }
        BeforeIrreflexive(found[n - 1].member);
      }
    }
    forall l <- found | UpThrough(l.member, found[n - 1].member)
      ensures l in found[..n]
    {
      var i :| 0 <= i < |found| && found[i] == l;
      assert found[..n][i] == l;
    }
    forall l <- found[..n]
      ensures UpThrough(l.member, found[n - 1].member)
    {
      var i :| 0 <= i < n && found[..n][i] == l;
      assert found[i] == l;
    }
  }

  /** Of sorted rows past `after`, the live members among the first `n` are those up to row `n`. */
  lemma LiveUpThrough(lines: seq<Line>, now: int, after: Option<string>, n: nat)
    requires Ascending(lines) && 0 < n <= |Beyond(lines, after)|
    ensures forall m :: m in LiveMembers(Beyond(lines, after)[..n], now) <==>
                        LiveBeyond(lines, now, after, m) && UpThrough(m, Beyond(lines, after)[n - 1].member)
  {
    var found := Beyond(lines, after);
    BeyondIsTheRest(lines, after);
    UpThroughIs(found, n);
    LiveMembersAreTheLiveOnes(found[..n], now);
    forall m | LiveBeyond(lines, now, after, m) && UpThrough(m, found[n - 1].member)
      ensures m in LiveMembers(found[..n], now)
    {
      var l :| l in lines && l.member == m && Live(l, now);
      assert l in found && l in found[..n];
    }
    forall m <- LiveMembers(found[..n], now)
      ensures LiveBeyond(lines, now, after, m) && UpThrough(m, found[n - 1].member)
    {
      var l :| l in found[..n] && l.member == m && Live(l, now);
      assert l in found && l in lines;
    }
  }

  lemma FoundIsPast(lines: seq<Line>, after: Option<string>, i: nat)
    requires Ascending(lines) && i < |Beyond(lines, after)|
    ensures Past(after, Beyond(lines, after)[i].member)
  {
    BeyondIsTheRest(lines, after);
    var found := Beyond(lines, after);
    assert lines[|lines| - |found| + i] == found[i] && found[i] in found;
  }

  lemma CursorMovesOn(lines: seq<Line>, after: Option<string>, n: nat)
    requires Ascending(lines) && 0 < n <= |Beyond(lines, after)|
    ensures var cursor := Beyond(lines, after)[n - 1].member;
            Past(after, cursor) && |Beyond(lines, Some(cursor))| < |Beyond(lines, after)|
  {
    var found := Beyond(lines, after);
    FoundIsPast(lines, after, n - 1);
    GoesOnAfter(lines, after, n - 1);
    assert |found[n..]| == |found| - n;
  }

  /** A page with a cursor holds exactly the live members from `after` up to it, and the cursor moved on. */
  lemma PageUpToItsCursor(lines: seq<Line>, now: int, after: Option<string>, limit: int)
    requires Ascending(lines) && limit > 0 && PageOf(lines, now, after, limit).cursor.Some?
    ensures var page := PageOf(lines, now, after, limit);
            && Past(after, page.cursor.value)
            && (forall m :: m in page.members <==>
                  LiveBeyond(lines, now, after, m) && UpThrough(m, page.cursor.value))
            && |Beyond(lines, page.cursor)| < |Beyond(lines, after)|
  {
    var n := Consumed(Beyond(lines, after), now, limit);
    LiveUpThrough(lines, now, after, n);
    CursorMovesOn(lines, after, n);
  }

  /** The rows past `after` hold a live member the page leaves out with nothing to say so. */
  predicate LosesMembers(found: seq<Line>, now: int, limit: nat)
    requires limit > 0
  {
    && |found| < ScanCap(limit)
    && |LiveMembers(found[..WholePages(|found|, limit)], now)| < limit < |LiveMembers(found, now)|
  }

  /**
   * A page says it was truncated exactly when the scan read all ten raw pages it is willing to: there were that many
   * rows, and the first nine pages of them did not fill the quota. A limit of none reads nothing and goes nowhere.
   */
  lemma TruncatedIff(lines: seq<Line>, now: int, after: Option<string>, limit: int)
    ensures var page, found := PageOf(lines, now, after, limit), Beyond(lines, after);
            if limit <= 0 then page.members == [] && page.cursor == after && !page.truncated
            else page.truncated <==> 10 * limit <= |found| && |LiveMembers(found[..9 * limit], now)| < limit
  {
  }

  /** What every page keeps, whatever it ended on. */
  lemma PageKeepsItsBounds(lines: seq<Line>, now: int, after: Option<string>, limit: int)
    requires Ascending(lines) && limit > 0
    ensures var page := PageOf(lines, now, after, limit);
            && |page.members| <= limit && Sorted(page.members)
            && page.members <= LiveMembers(Beyond(lines, after), now)
            && (|page.members| < limit ==> (page.cursor.None? <==> !page.truncated))
  {
    var found := Beyond(lines, after);
    var n := Consumed(found, now, limit);
    LiveBeyondIs(lines, now, after);
    UpToCounts(found, now, limit);
    assert found[..|found|] == found;
    LiveOfAPrefix(found, now, n, UpTo(found, now, limit));
    LiveOfAPrefix(found, now, n, |found|);
    SortedPrefix(PageOf(lines, now, after, limit).members, LiveMembers(found, now));
    if |LiveMembers(found[..n], now)| < limit {
      ShortOfTheLimit(found, now, limit);
    }
  }

  lemma SortedPrefix(some: seq<string>, all: seq<string>)
    requires Sorted(all) && some <= all
    ensures Sorted(some)
  {
    forall i, j | 0 <= i < j < |some|
      ensures Before(some[i], some[j])
    {
      assert some[i] == all[i] && some[j] == all[j];
    }
  }

  lemma ShortOfTheLimit(found: seq<Line>, now: int, limit: nat)
    requires limit > 0 && |LiveMembers(found[..Consumed(found, now, limit)], now)| < limit
    ensures RunsOut(found, now, limit) || Consumed(found, now, limit) == 0 <==> !ReadsTenPages(found, now, limit)
  {
    var n := Consumed(found, now, limit);
    UpToCounts(found, now, limit);
    if |found| < ScanCap(limit) {
      assert found[..n] == found;
      LiveOfAPrefix(found, now, WholePages(|found|, limit), |found|);
    } else {
      assert n == ScanCap(limit);
      LiveOfAPrefix(found, now, ScanCap(limit) - limit, n);
    }
  }

  /**
   * A page that answers no cursor, which reads as nothing more follows, leaves a live member out in exactly one
   * case: the rows end inside the scan, their full raw pages hold fewer live members than the quota, and all of
   * them together hold more than it.
   */
  lemma NullCursorLosesMembersIff(lines: seq<Line>, now: int, after: Option<string>, limit: int)
    requires Ascending(lines) && limit > 0
    ensures var page := PageOf(lines, now, after, limit);
            page.cursor.None? && !Complete(lines, now, after, page) <==> LosesMembers(Beyond(lines, after), now, limit)
  {
    var page, found := PageOf(lines, now, after, limit), Beyond(lines, after);
    var all := LiveMembers(found, now);
    PageKeepsItsBounds(lines, now, after, limit);
    LiveBeyondIs(lines, now, after);
    UpToCounts(found, now, limit);
    assert found[..|found|] == found;
    if RunsOut(found, now, limit) {
      if |all| <= limit {
        assert page.members == all;
      } else {
        NotInItsPrefix(page.members, all, limit);
        assert all[limit] in all;
      }
    }
  }

  lemma NotInItsPrefix(some: seq<string>, all: seq<string>, k: nat)
    requires Sorted(all) && some <= all && |some| <= k < |all|
    ensures all[k] !in some
  {
    forall i | 0 <= i < |some|
      ensures some[i] != all[k]
    {
      assert some[i] == all[i] && Before(all[i], all[k]);
      BeforeIrreflexive(all[k]);
    }
  }

  /** Without a cursor and short of the limit, the page is everything that was left. */
  lemma ShortPageIsTheRest(lines: seq<Line>, now: int, after: Option<string>, limit: int)
    requires Ascending(lines) && limit > 0
    requires var page := PageOf(lines, now, after, limit); page.cursor.None? && |page.members| < limit
    ensures forall m :: m in PageOf(lines, now, after, limit).members <==> LiveBeyond(lines, now, after, m)
  {
    var found := Beyond(lines, after);
    PageKeepsItsBounds(lines, now, after, limit);
    LiveBeyondIs(lines, now, after);
    UpToCounts(found, now, limit);
    assert found[..|found|] == found;
    ShortOfTheLimit(found, now, limit);
  }

  /** Five rows of which the third no longer counts. */
  function FiveRows(names: seq<string>): seq<Line>
    requires |names| == 5
  {
    [Line(names[0], Row(None)), Line(names[1], Row(None)), Line(names[2], Row(Some(0))),
     Line(names[3], Row(None)), Line(names[4], Row(None))]
  }

  lemma FiveRowsTallied(names: seq<string>) returns (tally: seq<seq<string>>)
    requires |names| == 5
    ensures Tally(FiveRows(names), 1, tally) && EndsShort(tally, 3, 1, 4) && tally[4] == [names[0], names[1], names[3]]
  {
    var two := [names[0], names[1]];
    tally := [[], [names[0]], two, two, two + [names[3]], two + [names[3], names[4]]];
    var lines := FiveRows(names);
    assert tally[1] == tally[0] + [lines[0].member] && tally[2] == tally[1] + [lines[1].member];
    assert tally[4] == tally[3] + [lines[3].member] && tally[5] == tally[4] + [lines[4].member];
    assert Rows(1, 3) == 3 + Rows(0, 3) == 3;
  }

  lemma FiveRowsAscend(names: seq<string>)
    requires |names| == 5 && Sorted(names)
    ensures Ascending(FiveRows(names))
  {
    var lines := FiveRows(names);
    forall i, j | 0 <= i < j < 5
      ensures Before(lines[i].member, lines[j].member)
    {
      assert lines[i].member == names[i] && lines[j].member == names[j];
    }
  }

  /** Five such rows, three asked for: the last is live, is not answered, and no cursor says it was left. */
  lemma APageLosesItsLastMember(names: seq<string>)
    requires |names| == 5 && Sorted(names)
    ensures Ascending(FiveRows(names))
    ensures PageOf(FiveRows(names), 1, None, 3) == MembersPage([names[0], names[1], names[3]], None, false)
    ensures LiveBeyond(FiveRows(names), 1, None, names[4]) && names[4] !in [names[0], names[1], names[3]]
  {
    var lines := FiveRows(names);
    FiveRowsAscend(names);
    AllBeyond(lines, None);
    var tally := FiveRowsTallied(names);
    var page := MembersPage([names[0], names[1], names[3]], None, false);
    ScanAnswersThePage(lines, 1, None, 3, tally, page, 2, 4);
    assert lines[4].member == names[4] && lines[4] in lines;
    BeforeIrreflexive(names[4]);
  }

  // ---------------------------------------------------------------- the walk

  /** Every page of an audience, from `after` on, until one answers no cursor. */
  function Walk(lines: seq<Line>, now: int, after: Option<string>, limit: int): seq<string>
    requires Ascending(lines) && limit > 0
    decreases |Beyond(lines, after)|
  {
    var page := PageOf(lines, now, after, limit);
    if page.cursor.None? then page.members
    else
      PageUpToItsCursor(lines, now, after, limit);
      page.members + Walk(lines, now, page.cursor, limit)
  }

  /** Whether the page a walk ends on leaves members out. */
  predicate WalkLoses(lines: seq<Line>, now: int, after: Option<string>, limit: int)
    requires Ascending(lines) && limit > 0
    decreases |Beyond(lines, after)|
  {
    var page := PageOf(lines, now, after, limit);
    if page.cursor.None? then LosesMembers(Beyond(lines, after), now, limit)
    else
      PageUpToItsCursor(lines, now, after, limit);
      WalkLoses(lines, now, page.cursor, limit)
  }

  lemma {:induction false} LiveSplits(lines: seq<Line>, now: int, n: nat)
    requires n <= |lines|
    ensures LiveMembers(lines, now) == LiveMembers(lines[..n], now) + LiveMembers(lines[n..], now)
    decreases |lines|
  {
    if n < |lines| {
      var last := |lines| - 1;
      assert lines[..last][..n] == lines[..n] && lines[..last][n..] == lines[n..][..last - n];
      LiveSplits(lines[..last], now, n);
    } else {
      assert lines[..n] == lines;
    }
  }

  /** The last page of a walk holds what was left, unless it is one that loses members. */
  lemma WalkEnds(lines: seq<Line>, now: int, after: Option<string>, limit: int)
    requires Ascending(lines) && limit > 0 && PageOf(lines, now, after, limit).cursor.None?
    ensures var page, all := PageOf(lines, now, after, limit), LiveMembers(Beyond(lines, after), now);
            page.members == all <==> !LosesMembers(Beyond(lines, after), now, limit)
  {
    var found := Beyond(lines, after);
    UpToCounts(found, now, limit);
    assert found[..|found|] == found;
    LiveOfAPrefix(found, now, Consumed(found, now, limit), |found|);
  }

  /** A page with a cursor takes what it answers off the front of what is left. */
  lemma WalkGoesOn(lines: seq<Line>, now: int, after: Option<string>, limit: int)
    requires Ascending(lines) && limit > 0 && PageOf(lines, now, after, limit).cursor.Some?
    ensures var page := PageOf(lines, now, after, limit);
            LiveMembers(Beyond(lines, after), now) == page.members + LiveMembers(Beyond(lines, page.cursor), now)
  {
    var found := Beyond(lines, after);
    var n := Consumed(found, now, limit);
    assert n > 0;
    GoesOnAfter(lines, after, n - 1);
    LiveSplits(found, now, n);
    assert PageOf(lines, now, after, limit).members == LiveMembers(found[..n], now);
  }

  lemma PrefixAfter(head: seq<string>, some: seq<string>, all: seq<string>)
    requires some <= all
    ensures head + some <= head + all
    ensures head + some == head + all <==> some == all
  {
    assert (head + all)[|head|..] == all && (head + some)[|head|..] == some;
  }

  /**
   * A walk answers live members in strictly ascending order, so none twice and none skipped before its end, and
   * it answers all of them unless the page it ends on is one that loses members.
   */
  lemma {:induction false} WalkIsTheLiveMembers(lines: seq<Line>, now: int, after: Option<string>, limit: int)
    requires Ascending(lines) && limit > 0
    ensures Sorted(Walk(lines, now, after, limit))
    ensures Walk(lines, now, after, limit) <= LiveMembers(Beyond(lines, after), now)
    ensures Walk(lines, now, after, limit) == LiveMembers(Beyond(lines, after), now) <==> !WalkLoses(lines, now, after, limit)
    decreases |Beyond(lines, after)|
  {
    var cursor := PageOf(lines, now, after, limit).cursor;
    LiveBeyondIs(lines, now, after);
    PageKeepsItsBounds(lines, now, after, limit);
    if cursor.None? {
      WalkEnds(lines, now, after, limit);
    } else {
      PageUpToItsCursor(lines, now, after, limit);
      WalkGoesOn(lines, now, after, limit);
      WalkIsTheLiveMembers(lines, now, cursor, limit);
      PrefixAfter(PageOf(lines, now, after, limit).members, Walk(lines, now, cursor, limit),
                  LiveMembers(Beyond(lines, cursor), now));
      SortedPrefix(Walk(lines, now, after, limit), LiveMembers(Beyond(lines, after), now));
    }
  }

  // --------------------------------------------------------------- the table

  /** Whether `lines` are the rows of one audience, in order. */
  ghost predicate Lists(lines: seq<Line>, table: Table, feature: string, audience: string)
  {
    && Ascending(lines)
    && (forall l <- lines :: RowAt(table, feature, audience, l.member) == Some(l.row))
    && (forall m :: RowAt(table, feature, audience, m).Some? ==> exists l <- lines :: l.member == m)
  }

  lemma {:induction false} FirstOf(names: set<string>) returns (first: string)
    requires names != {}
    ensures first in names && forall m <- names :: m == first || Before(first, m)
    decreases |names|
  {
    var one :| one in names;
    var rest := names - {one};
    first := one;
    if rest != {} {
      var next := FirstOf(rest);
      BeforeTotal(one, next);
      first := if Before(next, one) then next else one;
      forall m <- names
        ensures m == first || Before(first, m)
      {
        if m in rest && m != next && !Before(next, one) {
          BeforeTransitive(one, next, m);
        }
        assert m in rest || m == one;
      }
    }
  }

  lemma {:induction false} RowsInOrder(names: set<string>, table: Table, feature: string, audience: string)
    returns (lines: seq<Line>)
    requires forall m <- names :: Pk(feature, audience, m) in table
    ensures Ascending(lines) && forall l <- lines :: l.member in names && RowAt(table, feature, audience, l.member) == Some(l.row)
    ensures forall m <- names :: exists l <- lines :: l.member == m
    decreases |names|
  {
    if names == {} {
      lines := [];
    } else {
      var first := FirstOf(names);
      var rest := RowsInOrder(names - {first}, table, feature, audience);
      var head := Line(first, table[Pk(feature, audience, first)]);
      lines := [head] + rest;
      forall m <- names
        ensures exists l <- lines :: l.member == m
      {
        assert m == first ==> head in lines;
        assert m in names - {first} ==> exists l <- rest :: l.member == m && l in lines;
      }
    }
  }

  /** Every audience of every table has its listing. */
  lemma EveryAudienceIsListed(table: Table, feature: string, audience: string) returns (lines: seq<Line>)
    ensures Lists(lines, table, feature, audience)
  {
    var names := set pk <- table | pk.feature == feature && pk.audience == audience :: pk.member;
    lines := RowsInOrder(names, table, feature, audience);
    forall m | RowAt(table, feature, audience, m).Some?
      ensures exists l <- lines :: l.member == m
    {
      assert Pk(feature, audience, m).member in names;
    }
  }

  /** The listing and the membership check agree: a walk that loses nobody answers exactly who belongs. */
  lemma WalkAgreesWithHas(s: Shared, lines: seq<Line>, feature: string, audience: string, limit: int, m: string)
    requires Lists(lines, s.table, feature, audience) && limit > 0
    ensures m in Walk(lines, s.now, None, limit) ==> TableHolds(s, feature, audience, m)
    ensures !WalkLoses(lines, s.now, None, limit) ==>
              (m in Walk(lines, s.now, None, limit) <==> TableHolds(s, feature, audience, m))
  {
    WalkIsTheLiveMembers(lines, s.now, None, limit);
    LiveBeyondIs(lines, s.now, None);
    var live := exists l <- lines :: l.member == m && Live(l, s.now);
    if TableHolds(s, feature, audience, m) {
      var l :| l in lines && l.member == m;
      assert Live(l, s.now);
    }
    if LiveBeyond(lines, s.now, None, m) {
      var l :| l in lines && l.member == m && Live(l, s.now);
      assert RowAt(s.table, feature, audience, l.member) == Some(l.row);
    }
  }
}
