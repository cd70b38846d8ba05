/**
 * The two tables of the bot and the operations that change them: `/start` (insert-or-ignore
 * into `users`), a free-text filter message (append to `filters`) and one run of the check
 * cycle (a search per filter row, a notification per new item, then the row's watermark moves).
 * Timestamps are microseconds; the clock, the search replies and the delivery outcomes are inputs.
 */
module Subscriptions {
  import opened Wrappers
  import opened FilterParse
  import opened Search
  import opened Notify

  /** `timedelta(minutes=1)` in microseconds. */
  const OneMinute: int := 60 * 1000 * 1000

  /** The username stored when Telegram gives none. */
  const NoUsername: string := "NoUsername"

  /** One row of the `filters` table. `lastChecked` is `None` for a NULL or empty column. */
  datatype FilterRow = FilterRow(
    id: nat,
    userId: int,
    keywords: string,
    region: Option<string>,
    maxPrice: Option<nat>,
    lastChecked: Option<int>)

  /** One attempted notification: recipient, text, and whether the transport accepted it. */
  datatype Delivery = Delivery(to: int, text: string, ok: bool)

  // ---------------------------------------------------------------------------
  // The users table

  /** `message.from_user.username or "NoUsername"`: a missing or empty username is replaced. */
  function DisplayName(username: Option<string>): (r: string)
    ensures r != ""
    ensures username.Some? && username.value != "" ==> r == username.value
    ensures username.None? || username.value == "" ==> r == NoUsername
  {
    if username.Some? && username.value != "" then username.value else NoUsername
  }

  /** `INSERT OR IGNORE` keyed by user id: a new key gets `name`, an existing row is kept as is. */
  function InsertOrIgnore(users: map<int, string>, userId: int, name: string): (r: map<int, string>)
    ensures r.Keys == users.Keys + {userId}
    ensures forall u :: u in users ==> r[u] == users[u]
    ensures userId !in users ==> r[userId] == name
  {
    if userId in users then users else users[userId := name]
  }

  /** A second insert for the same user changes nothing: the first name stays. */
  lemma InsertOrIgnoreIdempotent(users: map<int, string>, userId: int, a: string, b: string)
    ensures InsertOrIgnore(InsertOrIgnore(users, userId, a), userId, b) == InsertOrIgnore(users, userId, a)
  {
  }

  // ---------------------------------------------------------------------------
  // The filters table

  /** `AUTOINCREMENT` keys: positive and strictly increasing in insertion order. */
  ghost predicate IdsIncreasing(rows: seq<FilterRow>) {
    (forall k :: 0 <= k < |rows| ==> rows[k].id >= 1)
    && (forall a, b :: 0 <= a < b < |rows| ==> rows[a].id < rows[b].id)
  }

  /** The row a filter message inserts, with its watermark one minute before `now`. */
  function NewRow(id: nat, userId: int, request: FilterRequest, now: int): FilterRow {
    FilterRow(id, userId, request.keywords, request.region, request.maxPrice, Some(now - OneMinute))
  }

  /** The filter rows of one user, in insertion order. */
  function RowsOf(rows: seq<FilterRow>, userId: int): seq<FilterRow> {
    if rows == [] then []
    else
      var n := |rows| - 1;
      RowsOf(rows[..n], userId) + (if rows[n].userId == userId then [rows[n]] else [])
  }

  /** A user's filters are exactly that user's rows of the table: each occurrence of a row of
      theirs is listed once, and nobody else's row is listed. */
  lemma {:induction false} RowsOfCount(rows: seq<FilterRow>, userId: int, r: FilterRow)
    ensures multiset(RowsOf(rows, userId))[r] == if r.userId == userId then multiset(rows)[r] else 0
    decreases |rows|
  {
    if rows != [] {
      var n := |rows| - 1;
      RowsOfCount(rows[..n], userId, r);
      assert rows == rows[..n] + [rows[n]];
      assert multiset(rows) == multiset(rows[..n]) + multiset{rows[n]};
    }
  }

  /** A user's filters are no more than the table, and each of them belongs to that user. */
  lemma {:induction false} RowsOfLength(rows: seq<FilterRow>, userId: int)
    ensures |RowsOf(rows, userId)| <= |rows|
    ensures forall k :: 0 <= k < |RowsOf(rows, userId)| ==> RowsOf(rows, userId)[k].userId == userId
    decreases |rows|
  {
    if rows != [] {
      RowsOfLength(rows[..|rows| - 1], userId);
    }
  }

  /** A filter message never replaces a filter: after appending a row, each user still has
      every filter they had, and only the row's own user gains one. */
  lemma AppendKeepsFilters(rows: seq<FilterRow>, row: FilterRow, userId: int, r: FilterRow)
    ensures multiset(RowsOf(rows + [row], userId))[r]
            == multiset(RowsOf(rows, userId))[r] + (if r == row && row.userId == userId then 1 else 0)
  {
    RowsOfCount(rows + [row], userId, r);
    RowsOfCount(rows, userId, r);
    assert multiset(rows + [row]) == multiset(rows) + multiset{row};
  }

  /** `UPDATE filters SET last_checked = t WHERE id = id`. */
  function UpdateWhereId(rows: seq<FilterRow>, id: nat, t: int): (r: seq<FilterRow>)
    ensures |r| == |rows|
  {
    seq(|rows|, k requires 0 <= k < |rows| => if rows[k].id == id then rows[k].(lastChecked := Some(t)) else rows[k])
  }

  /** Because ids are unique, the update by id touches exactly the row with that id. */
  lemma UpdateWhereIdTouchesOne(rows: seq<FilterRow>, i: nat, t: int)
    requires IdsIncreasing(rows) && i < |rows|
    ensures UpdateWhereId(rows, rows[i].id, t) == rows[i := rows[i].(lastChecked := Some(t))]
  {
    var r := UpdateWhereId(rows, rows[i].id, t);
    forall k | 0 <= k < |rows| ensures r[k] == rows[i := rows[i].(lastChecked := Some(t))][k] {
      if k != i {
        assert rows[k].id != rows[i].id by {
          if k < i { assert rows[k].id < rows[i].id; } else { assert rows[i].id < rows[k].id; }
        }
      }
    }
  }

  /** The table after a cycle: every row's watermark is the clock reading taken for it. */
  function Stamped(rows: seq<FilterRow>, stamps: seq<int>): (r: seq<FilterRow>)
    requires |stamps| == |rows|
    ensures |r| == |rows|
  {
    seq(|rows|, k requires 0 <= k < |rows| => rows[k].(lastChecked := Some(stamps[k])))
  }

  // ---------------------------------------------------------------------------
  // The check cycle, as a specification

  /** The search each row issues. */
  function RowQuery(row: FilterRow): seq<Param> {
    QueryParams(row.keywords, row.region, row.maxPrice)
  }

  function Queries(rows: seq<FilterRow>): (qs: seq<seq<Param>>)
    ensures |qs| == |rows|
  {
    seq(|rows|, k requires 0 <= k < |rows| => RowQuery(rows[k]))
  }

  /** Search replies and delivery outcomes fit the rows: one reply per row, one outcome per item. */
  ghost predicate FitsRows(n: nat, fetched: seq<seq<Tender>>, outcome: seq<seq<bool>>) {
    |fetched| == n && |outcome| == n && forall i :: 0 <= i < n ==> |outcome[i]| == |fetched[i]|
  }

  /** The notifications one row sends for one search reply, in reply order. */
  function RowSends(row: FilterRow, ts: seq<Tender>, oks: seq<bool>): seq<Delivery>
    requires |oks| == |ts|
  {
    if ts == [] then []
    else
      var n := |ts| - 1;
      RowSends(row, ts[..n], oks[..n])
        + (if IsNew(row.lastChecked, ts[n]) then [Delivery(row.userId, Message(ts[n]), oks[n])] else [])
  }

  /** The notifications of a whole cycle: the rows in table order, each row's in reply order. */
  function CycleSends(rows: seq<FilterRow>, fetched: seq<seq<Tender>>, outcome: seq<seq<bool>>): seq<Delivery>
    requires FitsRows(|rows|, fetched, outcome)
  {
    if rows == [] then []
    else
      var n := |rows| - 1;
      CycleSends(rows[..n], fetched[..n], outcome[..n]) + RowSends(rows[n], fetched[n], outcome[n])
  }

  /** One row sends exactly the selected items, each once, to the row's user, in reply order. */
  lemma {:induction false} RowSendsAreFresh(row: FilterRow, ts: seq<Tender>, oks: seq<bool>)
    requires |oks| == |ts|
    ensures |RowSends(row, ts, oks)| == |Fresh(row.lastChecked, ts)|
    ensures forall k :: 0 <= k < |RowSends(row, ts, oks)| ==>
              RowSends(row, ts, oks)[k].to == row.userId
              && RowSends(row, ts, oks)[k].text == Message(Fresh(row.lastChecked, ts)[k])
    decreases |ts|
  {
    if ts != [] {
      RowSendsAreFresh(row, ts[..|ts| - 1], oks[..|ts| - 1]);
    }
  }

  /** What is attempted, without the outcome. */
  function Attempts(ds: seq<Delivery>): (r: seq<(int, string)>)
    ensures |r| == |ds|
  {
    seq(|ds|, k requires 0 <= k < |ds| => (ds[k].to, ds[k].text))
  }

  lemma AttemptsAppend(a: seq<Delivery>, b: seq<Delivery>)
    ensures Attempts(a + b) == Attempts(a) + Attempts(b)
  {
  }

  lemma {:induction false} RowAttemptsIgnoreOutcome(row: FilterRow, ts: seq<Tender>, o1: seq<bool>, o2: seq<bool>)
    requires |o1| == |ts| && |o2| == |ts|
    ensures Attempts(RowSends(row, ts, o1)) == Attempts(RowSends(row, ts, o2))
    decreases |ts|
  {
    if ts != [] {
      var n := |ts| - 1;
      RowAttemptsIgnoreOutcome(row, ts[..n], o1[..n], o2[..n]);
      AttemptsAppend(RowSends(row, ts[..n], o1[..n]),
        if IsNew(row.lastChecked, ts[n]) then [Delivery(row.userId, Message(ts[n]), o1[n])] else []);
      AttemptsAppend(RowSends(row, ts[..n], o2[..n]),
        if IsNew(row.lastChecked, ts[n]) then [Delivery(row.userId, Message(ts[n]), o2[n])] else []);
    }
  }

  /** A failed delivery stops nothing: the cycle attempts the same notifications, to the same users,
      in the same order, whichever of them fail. */
  lemma {:induction false} CycleAttemptsIgnoreOutcome(rows: seq<FilterRow>, fetched: seq<seq<Tender>>,
                                                     o1: seq<seq<bool>>, o2: seq<seq<bool>>)
    requires FitsRows(|rows|, fetched, o1) && FitsRows(|rows|, fetched, o2)
    ensures Attempts(CycleSends(rows, fetched, o1)) == Attempts(CycleSends(rows, fetched, o2))
    decreases |rows|
  {
    if rows != [] {
      var n := |rows| - 1;
      CycleAttemptsIgnoreOutcome(rows[..n], fetched[..n], o1[..n], o2[..n]);
      RowAttemptsIgnoreOutcome(rows[n], fetched[n], o1[n], o2[n]);
      AttemptsAppend(CycleSends(rows[..n], fetched[..n], o1[..n]), RowSends(rows[n], fetched[n], o1[n]));
      AttemptsAppend(CycleSends(rows[..n], fetched[..n], o2[..n]), RowSends(rows[n], fetched[n], o2[n]));
    }
  }

  /** After a cycle, a row whose next search returns only items published no later than the
      clock reading it got sends nothing: the watermark is what keeps a notification from repeating. */
  lemma NoRepeatAfterCycle(rows: seq<FilterRow>, stamps: seq<int>, i: nat, ts: seq<Tender>, oks: seq<bool>)
    requires |stamps| == |rows| && i < |rows| && |oks| == |ts|
    requires forall k :: 0 <= k < |ts| ==> ts[k].published <= stamps[i]
    ensures |RowSends(Stamped(rows, stamps)[i], ts, oks)| == 0
  {
    FreshEmptyUpToWatermark(stamps[i], ts);
    RowSendsAreFresh(Stamped(rows, stamps)[i], ts, oks);
  }

  /** A new filter is notified, on its first cycle, of the dated items published in the minute
      before it was created or later, and of nothing older. */
  lemma FirstCycleOfNewRow(id: nat, userId: int, request: FilterRequest, now: int, ts: seq<Tender>, t: Tender)
    ensures multiset(Fresh(NewRow(id, userId, request, now).lastChecked, ts))[t]
            == if t.publicationDate != "" && t.published > now - OneMinute then multiset(ts)[t] else 0
  {
    FreshCount(NewRow(id, userId, request, now).lastChecked, ts, t);
  }

  lemma CycleSendsStep(rows: seq<FilterRow>, fetched: seq<seq<Tender>>, outcome: seq<seq<bool>>, i: nat)
    requires FitsRows(|rows|, fetched, outcome) && i < |rows|
    ensures CycleSends(rows[..i + 1], fetched[..i + 1], outcome[..i + 1])
            == CycleSends(rows[..i], fetched[..i], outcome[..i]) + RowSends(rows[i], fetched[i], outcome[i])
  {
    assert rows[..i + 1][..i] == rows[..i];
    assert fetched[..i + 1][..i] == fetched[..i] && outcome[..i + 1][..i] == outcome[..i];
  }

  lemma QueriesStep(rows: seq<FilterRow>, i: nat)
    requires i < |rows|
    ensures Queries(rows[..i + 1]) == Queries(rows[..i]) + [RowQuery(rows[i])]
  {
    var a := Queries(rows[..i + 1]);
    var b := Queries(rows[..i]) + [RowQuery(rows[i])];
    forall k | 0 <= k < |a| ensures a[k] == b[k] {
      assert rows[..i + 1][k] == rows[k];
      if k < i {
        assert rows[..i][k] == rows[k];
      }
    }
  }

  /** Part way through a cycle: the first `i` rows carry their new watermark, the others are as
      they were read. */
  ghost predicate StampedUpTo(current: seq<FilterRow>, rows: seq<FilterRow>, stamps: seq<int>, i: nat) {
    |current| == |rows| == |stamps| && i <= |rows|
    && (forall k :: 0 <= k < i ==> current[k] == rows[k].(lastChecked := Some(stamps[k])))
    && (forall k :: i <= k < |rows| ==> current[k] == rows[k])
  }

  /** The update of one cycle step touches row `i` alone and moves the boundary past it. */
  lemma StampOneRow(current: seq<FilterRow>, rows: seq<FilterRow>, stamps: seq<int>, i: nat)
    requires IdsIncreasing(rows) && StampedUpTo(current, rows, stamps, i) && i < |rows|
    ensures StampedUpTo(UpdateWhereId(current, rows[i].id, stamps[i]), rows, stamps, i + 1)
  {
    assert IdsIncreasing(current) by {
      forall a, b | 0 <= a < b < |current| ensures current[a].id < current[b].id {
        assert current[a].id == rows[a].id && current[b].id == rows[b].id;
      }
    }
    UpdateWhereIdTouchesOne(current, i, stamps[i]);
  }

  /** At the end of the cycle every row carries its new watermark. */
  lemma StampedUpToAll(current: seq<FilterRow>, rows: seq<FilterRow>, stamps: seq<int>)
    requires StampedUpTo(current, rows, stamps, |rows|)
    ensures current == Stamped(rows, stamps)
  {
  }

  /** The inner loop of the cycle: for each item of one search reply, in order, send the
      notification when the item is new; a failed send is recorded and the loop goes on. */
  method NotifyRow(row: FilterRow, tenders: seq<Tender>, oks: seq<bool>) returns (sent: seq<Delivery>)
    requires |oks| == |tenders|
    ensures sent == RowSends(row, tenders, oks)
  {
    sent := [];
    var j := 0;
    while j < |tenders|
      invariant 0 <= j <= |tenders|
      invariant sent == RowSends(row, tenders[..j], oks[..j])
    {
      var t := tenders[j];
      assert tenders[..j + 1][..j] == tenders[..j] && oks[..j + 1][..j] == oks[..j];
      if t.publicationDate == "" || row.lastChecked.None? {
        j := j + 1;
        continue;
      }
      if t.published > row.lastChecked.value {
        // The outcome is recorded and otherwise ignored: a failure is swallowed.
        sent := sent + [Delivery(row.userId, Message(t), oks[j])];
      }
      j := j + 1;
    }
    assert tenders[..j] == tenders && oks[..j] == oks;
  }

  // ---------------------------------------------------------------------------
  // The tables as state

  class Store {
    /** `users`: user id to username. */
    var users: map<int, string>
    /** `filters`, in insertion (and id) order. */
    var filters: seq<FilterRow>
    /** The id `AUTOINCREMENT` hands out next. */
    var nextId: nat

    ghost predicate Valid()
      reads this
    {
      nextId >= 1
      && IdsIncreasing(filters)
      && forall k :: 0 <= k < |filters| ==> filters[k].id < nextId
    }

    /** The empty tables `init_db` creates. */
    constructor ()
      ensures Valid()
      ensures users == map[] && filters == [] && nextId == 1
    {
      users := map[];
      filters := [];
      nextId := 1;
    }

    /** `/start`: record the user unless already known. */
    method Start(userId: int, username: Option<string>)
      requires Valid()
      modifies this`users
      ensures Valid()
      ensures users == InsertOrIgnore(old(users), userId, DisplayName(username))
    {
      var name := DisplayName(username);
      if userId !in users {
        users := users[userId := name];
      }
    }

    /** A free-text message: parse it and, if it holds a token, append one filter row.
        Returns what was parsed; `None` means the user was prompted and nothing was stored. */
    method SetFilter(userId: int, text: string, now: int) returns (parsed: Option<FilterRequest>)
      requires Valid()
      modifies this`filters, this`nextId
      ensures Valid()
      ensures parsed == ParseFilter(text)
      ensures parsed.None? ==> filters == old(filters) && nextId == old(nextId)
      ensures parsed.Some? ==>
                filters == old(filters) + [NewRow(old(nextId), userId, parsed.value, now)]
                && nextId == old(nextId) + 1
    {
      parsed := ParseFilter(text);
      if parsed.None? {
        return;
      }
      filters := filters + [NewRow(nextId, userId, parsed.value, now)];
      nextId := nextId + 1;
    }

    /** One run of the check cycle. For row `i` of the table as read at the start, `fetched[i]` is
        the reply to the search `queries[i]`, `outcome[i][j]` whether sending item `j` succeeded,
        and `stamps[i]` the clock reading written back as the row's new watermark. */
    method CheckCycle(fetched: seq<seq<Tender>>, outcome: seq<seq<bool>>, stamps: seq<int>)
      returns (queries: seq<seq<Param>>, sends: seq<Delivery>)
      requires Valid()
      requires FitsRows(|filters|, fetched, outcome) && |stamps| == |filters|
      modifies this`filters
      ensures Valid()
      ensures queries == Queries(old(filters))
      ensures sends == CycleSends(old(filters), fetched, outcome)
      ensures filters == Stamped(old(filters), stamps)
    {
      var rows := filters;
      queries, sends := [], [];
      var i := 0;
      while i < |rows|
        invariant 0 <= i <= |rows|
        invariant IdsIncreasing(rows) && forall k :: 0 <= k < |rows| ==> rows[k].id < nextId
        invariant StampedUpTo(filters, rows, stamps, i)
        invariant queries == Queries(rows[..i])
        invariant sends == CycleSends(rows[..i], fetched[..i], outcome[..i])
      {
        var row := rows[i];
        queries := queries + [RowQuery(row)];
        var rowSends := NotifyRow(row, fetched[i], outcome[i]);
        sends := sends + rowSends;
        CycleSendsStep(rows, fetched, outcome, i);
        QueriesStep(rows, i);
        StampOneRow(filters, rows, stamps, i);
        filters := UpdateWhereId(filters, row.id, stamps[i]);
        i := i + 1;
      }
      assert rows[..i] == rows;
      assert fetched[..i] == fetched && outcome[..i] == outcome;
      StampedUpToAll(filters, rows, stamps);
    }
  }
}
