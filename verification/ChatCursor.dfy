/** The polling cursor over Messages' chat.db and the state file that remembers it. */
module ChatCursor {
  import opened Prelude
  import opened Text

  /** A row of `message` with what its joins find: a handle row (whose id may be null) and the guids of its chats. */
  datatype Message = Message(rowid: nat, isFromMe: bool, text: Option<string>, dateNs: Option<int>,
                             handle: Option<Option<string>>, chats: seq<Option<string>>)

  datatype Inbound = Inbound(rowid: nat, handle: string, body: string, receivedNs: Option<int>, chatGuid: string)

  /** `str(x or "")` for a nullable text column. */
  function OrEmpty(x: Option<string>): string {
    if x.Some? then x.value else ""
  }

  /** The WHERE clause and the inner join on `handle`. */
  predicate Eligible(m: Message) {
    !m.isFromMe && m.text.Some? && m.handle.Some?
  }

  function InboundOf(m: Message, chat: Option<string>): Inbound
    requires Eligible(m)
  {
    var received := if m.dateNs == Some(0) then None else m.dateNs;
    Inbound(m.rowid, OrEmpty(m.handle.value), OrEmpty(m.text), received, OrEmpty(chat))
  }

  /** The joined rows of one message: one for each of its chats. */
  function RowsOf(m: Message): seq<Inbound> {
    if Eligible(m) then seq(|m.chats|, i requires 0 <= i < |m.chats| => InboundOf(m, m.chats[i])) else []
  }

  /** The joined rows with `low < ROWID <= high`, in ROWID order, of a table in ROWID order. */
  function RowsBetween(db: seq<Message>, low: int, high: int): seq<Inbound> {
    if db == [] then []
    else
      var m := db[|db| - 1];
      RowsBetween(db[..|db| - 1], low, high) + (if low < m.rowid <= high then RowsOf(m) else [])
  }

  predicate Ascending(db: seq<Message>) {
    forall i, j :: 0 <= i < j < |db| ==> db[i].rowid < db[j].rowid
  }

  /** `SELECT COALESCE(MAX(ROWID), 0)` of a table in ROWID order. */
  function MaxRowid(db: seq<Message>): nat {
    if db == [] then 0 else db[|db| - 1].rowid
  }

  /** The query of one poll. */
  function Query(db: seq<Message>, last: int): seq<Inbound> {
    RowsBetween(db, last, MaxRowid(db))
  }

  /** The ROWID in the state file; 0 where it is missing, blank or not a number. */
  function LastSeen(state: Option<string>): int {
    if state.None? || Strip(state.value) == "" then 0
    else
      var n := PyInt(Strip(state.value));
      if n.Some? then n.value else 0
  }

  /** The file reads back as the number that was written. */
  lemma WrittenReadsBack(rowid: nat)
    ensures LastSeen(Some(Decimal(rowid))) == rowid
  {
    DigitsAreNotSpecial(Decimal(rowid));
    PyIntOfDecimal(rowid);
  }

  function Highest(rows: seq<Inbound>, atLeast: int): int {
    if rows == [] then atLeast else Max(Highest(rows[..|rows| - 1], atLeast), rows[|rows| - 1].rowid)
  }

  function Max(a: int, b: int): int {
    if a < b then b else a
  }

  /** How a poll ends, apart from its query: the consumer may give up while handling a row, and the write may fail. */
  datatype Ending = Ending(abortAt: Option<nat>, writes: bool)

  predicate Aborts(rows: seq<Inbound>, e: Ending) {
    e.abortAt.Some? && e.abortAt.value < |rows|
  }

  /** What the consumer is handed, the row it gives up on included. */
  function Handed(rows: seq<Inbound>, e: Ending): seq<Inbound> {
    if Aborts(rows, e) then rows[..e.abortAt.value + 1] else rows
  }

  /** The state file after a poll over these rows. */
  function AfterPoll(state: Option<string>, rows: seq<Inbound>, e: Ending): Option<string> {
    var last := LastSeen(state);
    if !Aborts(rows, e) && e.writes && Highest(rows, last) > last then Some(Decimal(Highest(rows, last))) else state
  }

  class ChatDBCursor {
    var state: Option<string>

    constructor (state: Option<string>)
      ensures this.state == state
    {
      this.state := state;
    }

    method ReadLastSeen() returns (n: int)
      ensures n == LastSeen(state)
    {
      if state.None? {
        return 0;
      }
      var text := Strip(state.value);
      if text == "" {
        return 0;
      }
      var parsed := PyInt(text);
      n := if parsed.Some? then parsed.value else 0;
    }

    /** Write to a temporary file, then rename: the write happens whole or, where the file system refuses, not at all. */
    method WriteLastSeen(rowid: nat, writes: bool)
      modifies this
      ensures state == if writes then Some(Decimal(rowid)) else old(state)
      ensures writes ==> LastSeen(state) == rowid
    {
      WrittenReadsBack(rowid);
      if writes {
        state := Some(Decimal(rowid));
      }
    }

    method BootstrapToTail(db: Option<seq<Message>>, writes: bool) returns (rowid: nat)
      modifies this
      ensures db.None? ==> rowid == 0 && state == old(state)
      ensures db.Some? ==> rowid == MaxRowid(db.value)
      ensures db.Some? ==> state == if writes then Some(Decimal(rowid)) else old(state)
    {
      if db.None? {
        return 0;
      }
      rowid := MaxRowid(db.value);
      WriteLastSeen(rowid, writes);
    }

    /** One poll as its consumer drives it; `db` is `None` where chat.db cannot be opened. */
    method PollNew(db: Option<seq<Message>>, e: Ending) returns (handed: seq<Inbound>)
      modifies this
      ensures db.None? ==> handed == [] && state == old(state)
      ensures db.Some? ==> handed == Handed(Query(db.value, LastSeen(old(state))), e)
      ensures db.Some? ==> state == AfterPoll(old(state), Query(db.value, LastSeen(old(state))), e)
    {
      var last := ReadLastSeen();
      if db.None? {
        return [];
      }
      var rows := Query(db.value, last);
      var maxRowid;
      var exhausted;
      handed, exhausted, maxRowid := Yield(rows, last, e);
      if exhausted && maxRowid > last {
        WriteLastSeen(maxRowid, e.writes);
      }
    }

    /** The generator's loop: the maximum grows only after the consumer comes back for the next row. */
    static method Yield(rows: seq<Inbound>, last: int, e: Ending)
      returns (handed: seq<Inbound>, exhausted: bool, maxRowid: int)
      ensures handed == Handed(rows, e) && exhausted == !Aborts(rows, e)
      ensures exhausted ==> maxRowid == Highest(rows, last)
    {
      handed, maxRowid := [], last;
      for i := 0 to |rows|
        invariant handed == rows[..i] && maxRowid == Highest(rows[..i], last)
        invariant e.abortAt.Some? ==> i <= e.abortAt.value
      {
        assert rows[..i + 1][..i] == rows[..i];
        handed := handed + [rows[i]];
        if e.abortAt == Some(i) {
          return handed, false, maxRowid;
        }
        maxRowid := Max(maxRowid, rows[i].rowid);
      }
      assert rows[..|rows|] == rows;
      exhausted := true;
    }
  }

  // ---- runs: messages arrive, the relay starts, polls end well or badly

  datatype Event =
    | Arrive(m: Message)
    | Start(opens: bool, writes: bool)
    | Poll(opens: bool, ending: Ending)

  /** `base` is the cursor as the run, or the last successful bootstrap in it, set it; `log` is all that was handed
      over. */
  datatype System = System(db: seq<Message>, state: Option<string>, base: int, log: seq<Inbound>)

  function Cursor(sys: System): int {
    LastSeen(sys.state)
  }

  /** Rows are inserted whole, at increasing ROWIDs that start at 1. */
  predicate Possible(sys: System, e: Event) {
    e.Arrive? ==> e.m.rowid > MaxRowid(sys.db)
  }

  function Step(sys: System, e: Event): System {
    match e
    case Arrive(m) => sys.(db := sys.db + [m])
    case Start(opens, writes) =>
      if sys.state.None? && opens && writes then
        sys.(state := Some(Decimal(MaxRowid(sys.db))), base := MaxRowid(sys.db))
      else sys
    case Poll(opens, ending) =>
      if !opens then sys
      else
        var rows := Query(sys.db, Cursor(sys));
        sys.(state := AfterPoll(sys.state, rows, ending), log := sys.log + Handed(rows, ending))
  }

  function Run(sys: System, events: seq<Event>): System {
    if events == [] then sys else Step(Run(sys, events[..|events| - 1]), events[|events| - 1])
  }

  predicate Legal(sys: System, events: seq<Event>) {
    events == [] || (Legal(sys, events[..|events| - 1])
                     && Possible(Run(sys, events[..|events| - 1]), events[|events| - 1]))
  }

  /** Any chat.db and any state file, nothing handed over yet. */
  predicate Initial(sys: System) {
    Ascending(sys.db) && sys.base == Cursor(sys) && sys.log == []
  }

  // ---- what a query returns

  lemma {:induction false} RowsAreBounded(db: seq<Message>, low: int, high: int, x: Inbound)
    requires x in RowsBetween(db, low, high)
    ensures low < x.rowid <= high
    decreases |db|
  {
    var m := db[|db| - 1];
    if !(low < m.rowid <= high && x in RowsOf(m)) {
      RowsAreBounded(db[..|db| - 1], low, high, x);
    }
  }

  lemma {:induction false} RowsAreComplete(db: seq<Message>, low: int, high: int, m: Message, x: Inbound)
    requires m in db && low < m.rowid <= high && x in RowsOf(m)
    ensures x in RowsBetween(db, low, high)
    decreases |db|
  {
    if m != db[|db| - 1] {
      RowsAreComplete(db[..|db| - 1], low, high, m, x);
    }
  }

  lemma {:induction false} RowsSplit(db: seq<Message>, low: int, middle: int, high: int)
    requires Ascending(db) && low <= middle <= high
    ensures RowsBetween(db, low, middle) + RowsBetween(db, middle, high) == RowsBetween(db, low, high)
    decreases |db|
  {
    if db != [] {
      var before, m := db[..|db| - 1], db[|db| - 1];
      var own := if low < m.rowid <= high then RowsOf(m) else [];
      RowsSplit(before, low, middle, high);
      if m.rowid <= middle {
        NothingAbove(before, middle, high);
        assert RowsBetween(before, low, middle) == RowsBetween(before, low, high);
        assert RowsBetween(db, middle, high) == [];
      } else {
        JoinAssociates(RowsBetween(before, low, middle), RowsBetween(before, middle, high), own);
      }
    }
  }

  lemma JoinAssociates(a: seq<Inbound>, b: seq<Inbound>, c: seq<Inbound>)
    ensures a + (b + c) == (a + b) + c && a + [] == a
  {
  }

  lemma {:induction false} NothingAbove(db: seq<Message>, low: int, high: int)
    requires forall i :: 0 <= i < |db| ==> db[i].rowid <= low
    ensures RowsBetween(db, low, high) == []
    decreases |db|
  {
    if db != [] {
      NothingAbove(db[..|db| - 1], low, high);
    }
  }

  /** Lowering the upper bound to one that no returned row exceeds changes nothing. */
  lemma {:induction false} RowsTrim(db: seq<Message>, low: int, high: int, lower: int)
    requires lower <= high && forall x :: x in RowsBetween(db, low, high) ==> x.rowid <= lower
    ensures RowsBetween(db, low, high) == RowsBetween(db, low, lower)
    decreases |db|
  {
    if db != [] {
      var before, m := db[..|db| - 1], db[|db| - 1];
      RowsTrim(before, low, high, lower);
      if lower < m.rowid <= high && low < m.rowid {
        assert |RowsOf(m)| > 0 ==> RowsOf(m)[0] in RowsBetween(db, low, high);
      }
    }
  }

  /** Raising the upper bound past the end of the table changes nothing. */
  lemma RowsToTheEnd(db: seq<Message>, low: int, high: int)
    requires Ascending(db) && high >= MaxRowid(db)
    ensures RowsBetween(db, low, high) == RowsBetween(db, low, MaxRowid(db))
  {
    forall x | x in RowsBetween(db, low, high) ensures x.rowid <= MaxRowid(db) {
      RowsAreFromTheTable(db, low, high, x);
    }
    RowsTrim(db, low, high, MaxRowid(db));
  }

  lemma {:induction false} RowsAreFromTheTable(db: seq<Message>, low: int, high: int, x: Inbound)
    requires Ascending(db) && x in RowsBetween(db, low, high)
    ensures x.rowid <= MaxRowid(db)
    decreases |db|
  {
    var before, m := db[..|db| - 1], db[|db| - 1];
    if !(low < m.rowid <= high && x in RowsOf(m)) {
      RowsAreFromTheTable(before, low, high, x);
    }
  }

  /** Rows come in ROWID order, and each ROWID once where messages are in at most one chat. */
  lemma {:induction false} RowsAreInOrder(db: seq<Message>, low: int, high: int)
    requires Ascending(db)
    ensures var rows := RowsBetween(db, low, high);
            && (forall i, j :: 0 <= i < j < |rows| ==> rows[i].rowid <= rows[j].rowid)
            && ((forall m :: m in db ==> |m.chats| <= 1)
                ==> forall i, j :: 0 <= i < j < |rows| ==> rows[i].rowid < rows[j].rowid)
    decreases |db|
  {
    if db != [] {
      var before, m := db[..|db| - 1], db[|db| - 1];
      RowsAreInOrder(before, low, high);
      var rows := RowsBetween(before, low, high);
      forall i | 0 <= i < |rows| ensures rows[i].rowid < m.rowid {
        assert rows[i] in rows;
        RowsAreFromTheTable(before, low, high, rows[i]);
        RowsNeedATable(before, low, high);
      }
    }
  }

  lemma RowsNeedATable(db: seq<Message>, low: int, high: int)
    requires RowsBetween(db, low, high) != []
    ensures db != []
  {
  }

  // ---- which messages a query returns, and what of them

  /** The message has a row above `low` and up to `high` in the answer for each of its chats: it was received, it has a
      text, and a handle row. */
  predicate IsDue(m: Message, low: int, high: int) {
    low < m.rowid <= high && m.isFromMe == false && m.text != None && m.handle != None
  }

  /** The row shows this message in this chat. */
  predicate Shows(x: Inbound, m: Message, chat: Option<string>) {
    && x.rowid == m.rowid
    && (m.handle == Some(Some(x.handle)) || (m.handle == Some(None) && x.handle == ""))
    && m.text == Some(x.body)
    && (m.dateNs == x.receivedNs || (m.dateNs == Some(0) && x.receivedNs == None)) && x.receivedNs != Some(0)
    && (chat == Some(x.chatGuid) || (chat == None && x.chatGuid == ""))
  }

  /** A message by its position in the table, and a chat by its position among the chats of that message. */
  type Place = (nat, nat)

  predicate Precedes(a: Place, b: Place) {
    a.0 < b.0 || (a.0 == b.0 && a.1 < b.1)
  }

  predicate DuePlace(db: seq<Message>, low: int, high: int, p: Place) {
    p.0 < |db| && IsDue(db[p.0], low, high) && p.1 < |db[p.0].chats|
  }

  /** `at` lists exactly the due places, in order and each once, and the rows show them. */
  ghost predicate ListsDue(db: seq<Message>, low: int, high: int, at: seq<Place>, rows: seq<Inbound>) {
    && |at| == |rows|
    && (forall p :: p in at <==> DuePlace(db, low, high, p))
    && (forall j, k :: 0 <= j < k < |at| ==> Precedes(at[j], at[k]))
    && (forall k :: 0 <= k < |at| && at[k].0 < |db| && at[k].1 < |db[at[k].0].chats| ==>
          Shows(rows[k], db[at[k].0], db[at[k].0].chats[at[k].1]))
  }

  /** The places of the message at position `n`. */
  function PlacesOf(n: nat, count: nat): (at: seq<Place>)
    ensures |at| == count && forall c :: 0 <= c < count ==> at[c] == (n, c)
    ensures forall p :: p in at <==> p.0 == n && p.1 < count
  {
    var at := seq(count, c requires 0 <= c < count => (n, c));
    assert forall p: Place :: p.0 == n && p.1 < count ==> at[p.1] == p;
    at
  }

  lemma RowsShow(m: Message, low: int, high: int)
    requires IsDue(m, low, high)
    ensures |RowsOf(m)| == |m.chats| && forall c :: 0 <= c < |m.chats| ==> Shows(RowsOf(m)[c], m, m.chats[c])
  {
  }

  lemma NotDue(m: Message, low: int, high: int)
    requires !IsDue(m, low, high)
    ensures (if low < m.rowid <= high then RowsOf(m) else []) == []
  {
  }

  lemma DueSnoc(db: seq<Message>, m: Message, low: int, high: int, p: Place)
    ensures DuePlace(db + [m], low, high, p)
            <==> DuePlace(db, low, high, p) || (p.0 == |db| && IsDue(m, low, high) && p.1 < |m.chats|)
  {
  }

  lemma PlacesAreInTable(db: seq<Message>, low: int, high: int, at: seq<Place>)
    requires forall p :: p in at <==> DuePlace(db, low, high, p)
    ensures forall k :: 0 <= k < |at| ==> at[k].0 < |db| && at[k].1 < |db[at[k].0].chats|
  {
    forall k | 0 <= k < |at| ensures DuePlace(db, low, high, at[k]) {
      assert at[k] in at;
    }
  }

  lemma ListsDueSkip(db: seq<Message>, m: Message, low: int, high: int, at: seq<Place>, rows: seq<Inbound>)
    requires ListsDue(db, low, high, at, rows) && !IsDue(m, low, high)
    ensures ListsDue(db + [m], low, high, at, rows)
  {
    forall p: Place ensures DuePlace(db + [m], low, high, p) <==> p in at {
      DueSnoc(db, m, low, high, p);
    }
    PlacesAreInTable(db, low, high, at);
  }

  lemma PlacesJoin(db: seq<Message>, m: Message, low: int, high: int, at: seq<Place>)
    requires IsDue(m, low, high) && forall p :: p in at <==> DuePlace(db, low, high, p)
    requires forall j, k :: 0 <= j < k < |at| ==> Precedes(at[j], at[k])
    ensures var more := at + PlacesOf(|db|, |m.chats|);
            && (forall p :: p in more <==> DuePlace(db + [m], low, high, p))
            && (forall j, k :: 0 <= j < k < |more| ==> Precedes(more[j], more[k]))
  {
    forall p: Place ensures p in at + PlacesOf(|db|, |m.chats|) <==> DuePlace(db + [m], low, high, p) {
      DueSnoc(db, m, low, high, p);
    }
    PlacesAreInTable(db, low, high, at);
  }

  lemma ListsDueAdd(db: seq<Message>, m: Message, low: int, high: int, at: seq<Place>, rows: seq<Inbound>)
    requires ListsDue(db, low, high, at, rows) && IsDue(m, low, high)
    ensures ListsDue(db + [m], low, high, at + PlacesOf(|db|, |m.chats|), rows + RowsOf(m))
  {
    PlacesJoin(db, m, low, high, at);
    RowsShow(m, low, high);
    PlacesAreInTable(db, low, high, at);
  }

  lemma {:induction false} RowsAreDue(db: seq<Message>, low: int, high: int) returns (at: seq<Place>)
    ensures ListsDue(db, low, high, at, RowsBetween(db, low, high))
    decreases |db|
  {
    if db == [] {
      at := [];
    } else {
      var before, m := db[..|db| - 1], db[|db| - 1];
      assert db == before + [m];
      at := RowsAreDue(before, low, high);
      if IsDue(m, low, high) {
        ListsDueAdd(before, m, low, high, at, RowsBetween(before, low, high));
        at := at + PlacesOf(|before|, |m.chats|);
      } else {
        ListsDueSkip(before, m, low, high, at, RowsBetween(before, low, high));
        NotDue(m, low, high);
      }
    }
  }

  lemma {:induction false} HighestFacts(rows: seq<Inbound>, atLeast: int)
    ensures Highest(rows, atLeast) >= atLeast
    ensures forall x :: x in rows ==> x.rowid <= Highest(rows, atLeast)
    ensures Highest(rows, atLeast) == atLeast || exists x :: x in rows && x.rowid == Highest(rows, atLeast)
    decreases |rows|
  {
    if rows != [] {
      HighestFacts(rows[..|rows| - 1], atLeast);
      assert rows == rows[..|rows| - 1] + [rows[|rows| - 1]];
      assert rows[|rows| - 1] in rows;
    }
  }

  /** Where a poll leaves the cursor. */
  lemma CursorAfterPoll(sys: System, e: Event)
    requires e.Poll?
    ensures var rows, last := Query(sys.db, Cursor(sys)), Cursor(sys);
            Cursor(Step(sys, e))
            == if e.opens && e.ending.writes && !Aborts(rows, e.ending) then Highest(rows, last) else last
  {
    var rows, last := Query(sys.db, Cursor(sys)), Cursor(sys);
    HighestFacts(rows, last);
    if Highest(rows, last) > last {
      WrittenReadsBack(Highest(rows, last));
    }
  }

  // ---- the cursor never decreases

  lemma CursorStep(sys: System, e: Event)
    ensures Cursor(Step(sys, e)) >= Cursor(sys)
  {
    match e
    case Arrive(_) =>
    case Start(_, _) =>
      WrittenReadsBack(MaxRowid(sys.db));
    case Poll(_, _) =>
      CursorAfterPoll(sys, e);
      HighestFacts(Query(sys.db, Cursor(sys)), Cursor(sys));
  }

  lemma {:induction false} CursorNeverDecreases(sys: System, events: seq<Event>, k: nat)
    requires k <= |events|
    ensures Cursor(Run(sys, events[..k])) <= Cursor(Run(sys, events))
    decreases |events|
  {
    if k == |events| {
      assert events[..k] == events;
    } else {
      var before := events[..|events| - 1];
      assert before[..k] == events[..k];
      CursorNeverDecreases(sys, before, k);
      CursorStep(Run(sys, before), events[|events| - 1]);
    }
  }

  // ---- the cursor never passes a row that was not handed over

  /** Every row of the message has been handed over. */
  ghost predicate HandedOver(log: seq<Inbound>, m: Message) {
    forall x :: x in RowsOf(m) ==> x in log
  }

  ghost predicate SafeAt(db: seq<Message>, base: int, cursor: int, log: seq<Inbound>) {
    && Ascending(db)
    && base <= cursor <= Max(base, MaxRowid(db))
    && forall m :: m in db && base < m.rowid <= cursor ==> HandedOver(log, m)
  }

  ghost predicate Safe(sys: System) {
    SafeAt(sys.db, sys.base, Cursor(sys), sys.log)
  }

  lemma ArrivalIsSafe(db: seq<Message>, base: int, cursor: int, log: seq<Inbound>, m: Message)
    requires SafeAt(db, base, cursor, log) && m.rowid > MaxRowid(db)
    ensures SafeAt(db + [m], base, cursor, log)
  {
    assert !(base < m.rowid <= cursor);
    assert forall n :: n in db + [m] ==> n in db || n == m;
  }

  lemma ArriveIsSafe(sys: System, e: Event)
    requires Safe(sys) && e.Arrive? && Possible(sys, e)
    ensures Safe(Step(sys, e))
  {
    ArrivalIsSafe(sys.db, sys.base, Cursor(sys), sys.log, e.m);
  }

  lemma StartIsSafe(sys: System, e: Event)
    requires Safe(sys) && e.Start?
    ensures Safe(Step(sys, e))
  {
    WrittenReadsBack(MaxRowid(sys.db));
  }

  /** The tail is the highest ROWID of the table. */
  lemma {:induction false} RowidsUpToMax(db: seq<Message>, m: Message)
    requires Ascending(db) && m in db
    ensures m.rowid <= MaxRowid(db) && exists n :: n in db && n.rowid == MaxRowid(db)
  {
    assert db[|db| - 1] in db;
  }

  /** A poll that is not abandoned hands over every row above the cursor. */
  lemma WholePollHandsOver(sys: System, e: Event, m: Message)
    requires Ascending(sys.db) && e.Poll? && e.opens && !Aborts(Query(sys.db, Cursor(sys)), e.ending)
    requires m in sys.db && m.rowid > Cursor(sys)
    ensures HandedOver(Step(sys, e).log, m)
  {
    RowidsUpToMax(sys.db, m);
    forall x | x in RowsOf(m) ensures x in Step(sys, e).log {
      RowsAreComplete(sys.db, Cursor(sys), MaxRowid(sys.db), m, x);
    }
  }

  /** A whole poll hands over, for each received message above the cursor that has a text and a handle row, and for each
      of its chats, exactly one row, in table order, that shows it; and nothing else. */
  lemma WholePollHandsExactly(sys: System, e: Event) returns (at: seq<Place>)
    requires Ascending(sys.db) && e.Poll? && e.opens && !Aborts(Query(sys.db, Cursor(sys)), e.ending)
    ensures |sys.log| <= |Step(sys, e).log| && Step(sys, e).log[..|sys.log|] == sys.log
    ensures ListsDue(sys.db, Cursor(sys), MaxRowid(sys.db), at, Step(sys, e).log[|sys.log|..])
    ensures forall n, c :: 0 <= n < |sys.db| && 0 <= c < |sys.db[n].chats| ==>
              ((n, c) in at <==> && sys.db[n].rowid > Cursor(sys) && !sys.db[n].isFromMe
                                 && sys.db[n].text.Some? && sys.db[n].handle.Some?)
  {
    at := RowsAreDue(sys.db, Cursor(sys), MaxRowid(sys.db));
    forall n | 0 <= n < |sys.db| ensures sys.db[n].rowid <= MaxRowid(sys.db) {
      RowidsUpToMax(sys.db, sys.db[n]);
    }
    assert Step(sys, e).log[|sys.log|..] == Query(sys.db, Cursor(sys));
  }

  lemma PollBounds(sys: System, e: Event)
    requires Safe(sys) && e.Poll?
    ensures sys.base <= Cursor(Step(sys, e)) <= Max(sys.base, MaxRowid(sys.db))
  {
    var rows := Query(sys.db, Cursor(sys));
    CursorAfterPoll(sys, e);
    HighestFacts(rows, Cursor(sys));
    if Highest(rows, Cursor(sys)) > Cursor(sys) {
      var x :| x in rows && x.rowid == Highest(rows, Cursor(sys));
      RowsAreBounded(sys.db, Cursor(sys), MaxRowid(sys.db), x);
    }
  }

  lemma PollIsSafe(sys: System, e: Event)
    requires Safe(sys) && e.Poll?
    ensures Safe(Step(sys, e))
  {
    PollBounds(sys, e);
    CursorAfterPoll(sys, e);
    forall m | m in sys.db && sys.base < m.rowid <= Cursor(Step(sys, e)) ensures HandedOver(Step(sys, e).log, m) {
      if m.rowid > Cursor(sys) {
        WholePollHandsOver(sys, e, m);
      }
    }
  }

  /**
   * Whatever polls abort, whatever writes fail and whenever messages arrive: no row above the base that the cursor has
   * passed is one the consumer was not handed.
   */
  lemma {:induction false} CursorPassesOnlyHandedRows(sys: System, events: seq<Event>)
    requires Initial(sys) && Legal(sys, events)
    ensures Safe(Run(sys, events))
    decreases |events|
  {
    if events != [] {
      var before, e := events[..|events| - 1], events[|events| - 1];
      CursorPassesOnlyHandedRows(sys, before);
      match e
      case Arrive(_) => ArriveIsSafe(Run(sys, before), e);
      case Start(_, _) => StartIsSafe(Run(sys, before), e);
      case Poll(_, _) => PollIsSafe(Run(sys, before), e);
    }
  }

  /** At least once: one whole poll after any trouble, and every row above the base has been handed over. */
  lemma {:induction false} WholePollCatchesUp(sys: System, events: seq<Event>, e: Event, m: Message)
    requires Initial(sys) && Legal(sys, events)
    requires e.Poll? && e.opens && e.ending.abortAt.None?
    requires var now := Run(sys, events); m in now.db && m.rowid > now.base
    ensures HandedOver(Step(Run(sys, events), e).log, m)
  {
    CursorPassesOnlyHandedRows(sys, events);
    if m.rowid > Cursor(Run(sys, events)) {
      WholePollHandsOver(Run(sys, events), e, m);
    }
  }

  // ---- exactly once, in order, when nothing is abandoned

  predicate Smooth(e: Event) {
    e.Poll? ==> e.ending.abortAt.None? && e.ending.writes
  }

  /** The log is exactly the rows between base and cursor, in order; before the first write both are 0. */
  predicate InStep(sys: System) {
    && sys.base <= Cursor(sys)
    && sys.log == RowsBetween(sys.db, sys.base, Cursor(sys))
    && (sys.state.None? ==> sys.base == 0)
  }

  lemma SmoothPoll(sys: System, e: Event)
    requires Safe(sys) && InStep(sys) && e.Poll? && Smooth(e)
    ensures InStep(Step(sys, e))
    ensures e.opens ==> Step(sys, e).log == RowsBetween(sys.db, sys.base, Max(sys.base, MaxRowid(sys.db)))
  {
    if e.opens {
      var last, top := Cursor(sys), Max(sys.base, MaxRowid(sys.db));
      var rows, next := Query(sys.db, last), Cursor(Step(sys, e));
      CursorAfterPoll(sys, e);
      HighestFacts(rows, last);
      PollBounds(sys, e);
      RowsToTheEnd(sys.db, last, top);
      RowsSplit(sys.db, sys.base, last, top);
      assert Step(sys, e).log == RowsBetween(sys.db, sys.base, top);
      forall x | x in RowsBetween(sys.db, last, top) ensures x.rowid <= next {
        assert x in rows;
      }
      RowsTrim(sys.db, last, top, next);
      RowsSplit(sys.db, sys.base, last, next);
    }
  }

  lemma SmoothStart(sys: System, e: Event)
    requires Safe(sys) && InStep(sys) && e.Start?
    ensures InStep(Step(sys, e))
  {
    WrittenReadsBack(MaxRowid(sys.db));
    EmptyRange(sys.db, 0);
    EmptyRange(sys.db, MaxRowid(sys.db));
  }

  lemma {:induction false} EmptyRange(db: seq<Message>, low: int)
    ensures RowsBetween(db, low, low) == []
  {
    if db != [] {
      EmptyRange(db[..|db| - 1], low);
    }
  }

  lemma SmoothArrive(sys: System, e: Event)
    requires Safe(sys) && InStep(sys) && e.Arrive? && Possible(sys, e)
    ensures InStep(Step(sys, e))
  {
    assert (sys.db + [e.m])[..|sys.db|] == sys.db;
    assert RowsBetween(sys.db, sys.base, Cursor(sys)) + [] == RowsBetween(sys.db, sys.base, Cursor(sys));
  }

  /**
   * Without abandoned polls and failed writes, at every moment the consumer has been handed exactly the rows between
   * base and cursor, each once and in ROWID order.
   */
  lemma {:induction false} ExactlyOnceInOrder(sys: System, events: seq<Event>)
    requires Initial(sys) && Legal(sys, events)
    requires forall e :: e in events ==> Smooth(e)
    ensures InStep(Run(sys, events))
    decreases |events|
  {
    if events == [] {
      EmptyRange(sys.db, sys.base);
    } else {
      var before, e := events[..|events| - 1], events[|events| - 1];
      ExactlyOnceInOrder(sys, before);
      CursorPassesOnlyHandedRows(sys, before);
      match e
      case Arrive(_) => SmoothArrive(Run(sys, before), e);
      case Start(_, _) => SmoothStart(Run(sys, before), e);
      case Poll(_, _) => SmoothPoll(Run(sys, before), e);
    }
  }

  // ---- the bootstrap tail

  lemma NewRowsAreAbove(sys: System, e: Event, i: nat)
    requires |sys.log| <= i < |Step(sys, e).log|
    ensures Step(sys, e).log[i].rowid > Cursor(sys)
  {
    var rows := Query(sys.db, Cursor(sys));
    var x := Step(sys, e).log[i];
    assert x == Handed(rows, e.ending)[i - |sys.log|];
    assert x in rows;
    RowsAreBounded(sys.db, Cursor(sys), MaxRowid(sys.db), x);
  }

  lemma LogKeeps(sys: System, e: Event)
    ensures sys.log <= Step(sys, e).log
  {
  }

  /** Whatever follows, only rows above the present cursor are handed over. */
  lemma {:induction false} NothingAtOrBelowCursor(sys: System, events: seq<Event>, i: nat)
    requires |sys.log| <= i < |Run(sys, events).log|
    ensures Run(sys, events).log[i].rowid > Cursor(sys)
    decreases |events|
  {
    if events != [] {
      var before, e := events[..|events| - 1], events[|events| - 1];
      LogKeeps(Run(sys, before), e);
      if i < |Run(sys, before).log| {
        NothingAtOrBelowCursor(sys, before, i);
      } else {
        NewRowsAreAbove(Run(sys, before), e, i);
        assert before[..0] == [];
        CursorNeverDecreases(sys, before, 0);
      }
    }
  }

  /** After a successful bootstrap nothing at or below the tail it found is ever handed over. */
  lemma NothingAtOrBelowTail(sys: System, e: Event, events: seq<Event>, i: nat)
    requires e.Start? && sys.state.None? && e.opens && e.writes
    requires |sys.log| <= i < |Run(Step(sys, e), events).log|
    ensures Run(Step(sys, e), events).log[i].rowid > MaxRowid(sys.db)
  {
    WrittenReadsBack(MaxRowid(sys.db));
    NothingAtOrBelowCursor(Step(sys, e), events, i);
  }

  /** The event moves no cursor: a message arrives, or a poll cannot open chat.db, is abandoned at its first row, or
      cannot write. */
  predicate MovesNothing(e: Event) {
    e.Arrive? || (e.Poll? && (!e.opens || !e.ending.writes || e.ending.abortAt == Some(0)))
  }

  lemma MovesNothingStep(sys: System, e: Event)
    requires MovesNothing(e)
    ensures Step(sys, e).state == sys.state
  {
    if e.Poll? && e.opens && e.ending.writes {
      var rows := Query(sys.db, Cursor(sys));
      assert Aborts(rows, e.ending) || rows == [];
    }
  }

  lemma {:induction false} StateUnmoved(sys: System, events: seq<Event>)
    requires forall e :: e in events ==> MovesNothing(e)
    ensures Run(sys, events).state == sys.state
    decreases |events|
  {
    if events != [] {
      StateUnmoved(sys, events[..|events| - 1]);
      MovesNothingStep(Run(sys, events[..|events| - 1]), events[|events| - 1]);
    }
  }

  /** When chat.db cannot be opened at the first start, polling does not make up for the bootstrap: whatever arrives and
      whatever polls come to nothing, the first whole poll hands over the entire history, from the first row on. */
  lemma FailedBootstrapReplaysHistory(sys: System, e: Event, events: seq<Event>, poll: Event)
    requires e.Start? && sys.state.None? && !e.opens
    requires forall x :: x in events ==> MovesNothing(x)
    requires poll.Poll? && poll.opens && poll.ending.abortAt.None?
    ensures var before := Run(Step(sys, e), events);
            Step(before, poll).log == before.log + RowsBetween(before.db, 0, MaxRowid(before.db))
  {
    StateUnmoved(Step(sys, e), events);
  }
}
