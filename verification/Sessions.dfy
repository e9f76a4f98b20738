/**
  The two bounded conversation stores, and the unbounded history that both are
  windows onto.
 */
module Sessions {
  import opened Prelude
  import opened OrderedDict
  import opened Proposals

  /** The "role" entry of a message, known by its `str` when it is no string. */
  datatype Role = NoRole | RoleText(text: string) | RoleObject(shown: string)

  /** A message is a dictionary: its role and all its other entries. */
  datatype Message = Message(role: Role, rest: Value)

  /** `max_messages`, which the constructors require to be at least 2. */
  type Capacity = n: nat | n >= 2 witness 2

  datatype Op = Append(session: string, messages: seq<Message>) | Clear(session: string)

  /** Everything said in a session since it was last cleared. */
  function History(ops: seq<Op>, s: string): seq<Message> {
    if ops == [] then []
    else
      var before := History(ops[..|ops| - 1], s);
      match ops[|ops| - 1]
      case Append(session, messages) => if session == s && !Blank(session) then before + messages else before
      case Clear(session) => if session == s then [] else before
  }

  function LastN<T>(xs: seq<T>, n: nat): seq<T> {
    if |xs| <= n then xs else xs[|xs| - n..]
  }

  lemma LastNAppend<T>(xs: seq<T>, ys: seq<T>, n: nat)
    ensures LastN(LastN(xs, n) + ys, n) == LastN(xs + ys, n)
  {
  }

  // ---- the process-local store --------------------------------------------

  type Memory = map<string, seq<Message>>

  function MemoryOf(m: Memory, s: string): seq<Message> {
    if s in m then m[s] else []
  }

  function MemoryStep(m: Memory, op: Op, n: Capacity): Memory {
    match op
    case Append(session, messages) =>
      if Blank(session) then m else m[session := LastN(MemoryOf(m, session) + messages, n)]
    case Clear(session) => m - {session}
  }

  function MemoryRun(ops: seq<Op>, n: Capacity): Memory {
    if ops == [] then map[] else MemoryStep(MemoryRun(ops[..|ops| - 1], n), ops[|ops| - 1], n)
  }

  /** After any interleaving of sessions, the local store answers with the last messages since the last clear. */
  lemma {:induction false} MemoryIsWindow(ops: seq<Op>, n: Capacity, s: string)
    ensures MemoryOf(MemoryRun(ops, n), s) == LastN(History(ops, s), n)
    decreases |ops|
  {
    if ops != [] {
      var (front, op) := (ops[..|ops| - 1], ops[|ops| - 1]);
      MemoryIsWindow(front, n, s);
      if op.Append? { LastNAppend(History(front, s), op.messages, n); }
    }
  }

  // ---- the SQLite store ---------------------------------------------------

  /** A row of `session_messages`; the table is kept in the order of its autoincremented id. */
  datatype Row = Row(session: string, message: Message)

  /** `default=str`: what the JSON encoder does not know becomes its text. */
  function Texted(v: Value): Value
    decreases v, 0
  {
    match v
    case Dict(es) => Dict(TextedEntries(es))
    case Seq(Set(shown), _) => Str(shown)
    case Seq(kind, items) => Seq(kind, TextedItems(items))
    case Enum(_, shown) => Str(shown)
    case Other(shown) => Str(shown)
    case _ => v
  }

  function TextedEntries(es: Entries): Entries
    decreases es, 1
  {
    if es == [] then []
    else
      assert (es decreases to es[0]);
      [Item(es[0].key, Texted(es[0].value))] + TextedEntries(es[1..])
  }

  function TextedItems(items: seq<Value>): seq<Value>
    decreases items, 1
  {
    if items == [] then [] else [Texted(items[0])] + TextedItems(items[1..])
  }

  /**
    `json.loads(json.dumps(v, default=str))`: tuples come back as lists and
    keys as strings, the last of two equal ones winning.
   */
  function Dumped(v: Value): Value {
    JsonSafe(Texted(v))
  }

  lemma {:induction false} JsonNeedsNoText(v: Value)
    requires IsJson(v)
    ensures Texted(v) == v
    decreases v, 0
  {
    match v
    case Dict(es) => EntriesNeedNoText(es);
    case Seq(_, items) => ItemsNeedNoText(items);
    case _ =>
  }

  lemma {:induction false} EntriesNeedNoText(es: Entries)
    requires forall i :: 0 <= i < |es| ==> IsJson(es[i].value)
    ensures TextedEntries(es) == es
    decreases es, 1
  {
    if es != [] {
      assert (es decreases to es[0]);
      JsonNeedsNoText(es[0].value);
      EntriesNeedNoText(es[1..]);
      assert es == [es[0]] + es[1..];
    }
  }

  lemma {:induction false} ItemsNeedNoText(items: seq<Value>)
    requires forall x :: x in items ==> IsJson(x)
    ensures TextedItems(items) == items
    decreases items, 1
  {
    if items != [] {
      JsonNeedsNoText(items[0]);
      ItemsNeedNoText(items[1..]);
      assert items == [items[0]] + items[1..];
    }
  }

  /** A trip through the content column leaves a value as it was exactly when it is JSON. */
  lemma DumpedSameIff(v: Value)
    ensures Dumped(v) == v <==> IsJson(v)
  {
    SafeIsJson(Texted(v));
    if IsJson(v) {
      JsonNeedsNoText(v);
      JsonIsFixed(v);
    }
  }

  function DumpedOption(v: Option<Value>): Option<Value> {
    if v.Some? then Some(Dumped(v.value)) else None
  }

  /**
    A dump and reload, piece by piece: what JSON has stays, what it has not becomes
    its text, tuples become lists, and an object has what it had under each text.
   */
  lemma {:induction false} DumpedPiecewise(v: Value)
    ensures match v
            case Dict(es) =>
              && Dumped(v).Dict?
              && forall text: string ::
                   Get(Dumped(v).entries, Text(text)) == DumpedOption(Lookup(es, text))
            case Seq(Set(shown), _) => Dumped(v) == Str(shown)
            case Seq(_, items) =>
              && Dumped(v).Seq? && Dumped(v).kind == List && |Dumped(v).items| == |items|
              && forall i :: 0 <= i < |items| ==> Dumped(v).items[i] == Dumped(items[i])
            case Enum(_, shown) => Dumped(v) == Str(shown)
            case Other(shown) => Dumped(v) == Str(shown)
            case _ => Dumped(v) == v
  {
    match v
    case Dict(es) =>
      forall text: string
        ensures Get(Dumped(v).entries, Text(text)) ==
                DumpedOption(Lookup(es, text))
      {
        SafeGet(TextedEntries(es), text);
        TextedLookup(es, text);
      }
    case Seq(kind, items) =>
      if items != [] { TextedItemAt(items, 0); SafeItemAt(TextedItems(items), 0); }
      if !kind.Set? {
        forall i | 0 <= i < |items|
          ensures |SafeItems(TextedItems(items))| == |items| && SafeItems(TextedItems(items))[i] == Dumped(items[i])
        {
          TextedItemAt(items, i);
          SafeItemAt(TextedItems(items), i);
        }
      }
    case _ =>
  }

  lemma {:induction false} TextedItemAt(items: seq<Value>, i: nat)
    requires i < |items|
    ensures |TextedItems(items)| == |items| && TextedItems(items)[i] == Texted(items[i])
    decreases |items|
  {
    if |items| > 1 { TextedItemAt(items[1..], if i > 0 then i - 1 else 0); }
  }

  lemma {:induction false} TextedSnoc(es: Entries, e: Item<Key, Value>)
    ensures TextedEntries(es + [e]) == TextedEntries(es) + [Item(e.key, Texted(e.value))]
    decreases |es|
  {
    if es == [] {
      assert es + [e] == [e];
    } else {
      assert (es + [e])[1..] == es[1..] + [e];
      TextedSnoc(es[1..], e);
    }
  }

  lemma {:induction false} TextedLookup(es: Entries, text: string)
    ensures Lookup(TextedEntries(es), text) ==
            match Lookup(es, text) case None => None case Some(x) => Some(Texted(x))
    decreases |es|
  {
    if es != [] {
      var (front, last) := (es[..|es| - 1], es[|es| - 1]);
      assert es == front + [last];
      TextedSnoc(front, last);
      TextedLookup(front, text);
      var texted := TextedEntries(front) + [Item(last.key, Texted(last.value))];
      assert texted[..|texted| - 1] == TextedEntries(front);
    }
  }

  /** What a message looks like after its role and its other entries went through their columns. */
  function Columns(m: Message): Message {
    Message(RoleText(match m.role case NoRole => "unknown" case RoleText(t) => t case RoleObject(t) => t),
      Dumped(m.rest))
  }

  function Inserted(session: string, messages: seq<Message>): seq<Row> {
    seq(|messages|, i requires 0 <= i < |messages| => Row(session, Columns(messages[i])))
  }

  /** The DELETE: of one session's rows, only the `n` with the highest ids stay. */
  function Trim(rows: seq<Row>, s: string, n: nat): seq<Row> {
    if rows == [] then []
    else
      var (front, last) := (rows[..|rows| - 1], rows[|rows| - 1]);
      if last.session != s then Trim(front, s, n) + [last]
      else if n > 0 then Trim(front, s, n - 1) + [last]
      else Trim(front, s, 0)
  }

  function Selected(rows: seq<Row>, s: string): seq<Message> {
    if rows == [] then []
    else
      var front := Selected(rows[..|rows| - 1], s);
      if rows[|rows| - 1].session == s then front + [rows[|rows| - 1].message] else front
  }

  function Without(rows: seq<Row>, s: string): seq<Row> {
    Trim(rows, s, 0)
  }

  function TableStep(rows: seq<Row>, op: Op, n: Capacity): seq<Row> {
    match op
    case Append(session, messages) =>
      if Blank(session) then rows else Trim(rows + Inserted(session, messages), session, n)
    case Clear(session) => Without(rows, session)
  }

  function TableRun(ops: seq<Op>, n: Capacity): seq<Row> {
    if ops == [] then [] else TableStep(TableRun(ops[..|ops| - 1], n), ops[|ops| - 1], n)
  }

  function TableOf(rows: seq<Row>, s: string, n: Capacity): seq<Message> {
    if Blank(s) then [] else LastN(Selected(rows, s), n)
  }

  function AllColumns(messages: seq<Message>): seq<Message> {
    seq(|messages|, i requires 0 <= i < |messages| => Columns(messages[i]))
  }

  lemma SelectedSnoc(rows: seq<Row>, r: Row, s: string)
    ensures Selected(rows + [r], s) == if r.session == s then Selected(rows, s) + [r.message] else Selected(rows, s)
  {
    assert (rows + [r])[..|rows|] == rows;
  }

  lemma LastNSnoc<T>(xs: seq<T>, x: T, n: nat)
    ensures LastN(xs + [x], n + 1) == LastN(xs, n) + [x]
  {
  }

  /** Trimming one session leaves its last rows, and every other session whole. */
  lemma {:induction false} TrimSelects(rows: seq<Row>, s: string, n: nat, other: string)
    ensures Selected(Trim(rows, s, n), other) == if other == s
            then LastN(Selected(rows, s), n) else Selected(rows, other)
    decreases |rows|
  {
    if rows == [] {
      assert Trim(rows, s, n) == [] && LastN(Selected(rows, s), n) == [];
    } else {
      var (front, last) := (rows[..|rows| - 1], rows[|rows| - 1]);
      if last.session != s {
        TrimSelects(front, s, n, other);
        SelectedSnoc(Trim(front, s, n), last, other);
      } else if n > 0 {
        TrimSelects(front, s, n - 1, other);
        SelectedSnoc(Trim(front, s, n - 1), last, other);
        LastNSnoc(Selected(front, s), last.message, n - 1);
      } else {
        TrimSelects(front, s, 0, other);
      }
    }
  }

  lemma InsertedSnoc(rows: seq<Row>, session: string, messages: seq<Message>, m: Message)
    ensures rows + Inserted(session, messages + [m]) ==
            (rows + Inserted(session, messages)) + [Row(session, Columns(m))]
  {
  }

  lemma AllColumnsSnoc(h: seq<Message>, messages: seq<Message>, m: Message)
    ensures h + AllColumns(messages + [m]) == (h + AllColumns(messages)) + [Columns(m)]
  {
  }

  lemma {:induction false} InsertedSelects(rows: seq<Row>, session: string, messages: seq<Message>, s: string)
    ensures Selected(rows + Inserted(session, messages), s) ==
            if s == session then Selected(rows, s) + AllColumns(messages) else Selected(rows, s)
    decreases |messages|
  {
    if messages == [] {
      assert rows + Inserted(session, messages) == rows
          && Selected(rows, s) + AllColumns(messages) == Selected(rows, s);
    } else {
      var (front, last) := (messages[..|messages| - 1], messages[|messages| - 1]);
      assert messages == front + [last];
      InsertedSelects(rows, session, front, s);
      InsertedSnoc(rows, session, front, last);
      SelectedSnoc(rows + Inserted(session, front), Row(session, Columns(last)), s);
      AllColumnsSnoc(Selected(rows, s), front, last);
    }
  }

  lemma AllColumnsLast(h: seq<Message>, n: nat)
    ensures AllColumns(LastN(h, n)) == LastN(AllColumns(h), n)
  {
  }

  lemma ColumnsWindow(h: seq<Message>, messages: seq<Message>, n: nat)
    ensures LastN(AllColumns(LastN(h, n)) + AllColumns(messages), n) == AllColumns(LastN(h + messages, n))
  {
    AllColumnsLast(h, n);
    LastNAppend(AllColumns(h), AllColumns(messages), n);
    AllColumnsAppend(h, messages);
    AllColumnsLast(h + messages, n);
  }

  lemma AllColumnsAppend(h: seq<Message>, messages: seq<Message>)
    ensures AllColumns(h + messages) == AllColumns(h) + AllColumns(messages)
  {
  }

  /** The table answers with the last messages since the last clear, as their columns render them. */
  lemma {:induction false} TableIsWindow(ops: seq<Op>, n: Capacity, s: string)
    ensures Selected(TableRun(ops, n), s) == AllColumns(LastN(History(ops, s), n))
    ensures TableOf(TableRun(ops, n), s, n) == AllColumns(LastN(History(ops, s), n))
    decreases |ops|
  {
    if ops != [] {
      var (front, op) := (ops[..|ops| - 1], ops[|ops| - 1]);
      var (rows, h) := (TableRun(front, n), History(front, s));
      TableIsWindow(front, n, s);
      match op
      case Clear(session) => TrimSelects(rows, session, 0, s);
      case Append(session, messages) =>
        InsertedSelects(rows, session, messages, s);
        TrimSelects(rows + Inserted(session, messages), session, n, s);
        ColumnsWindow(h, messages, n);
    }
    if Blank(s) { BlankIsEmpty(ops, s); }
  }

  lemma {:induction false} BlankIsEmpty(ops: seq<Op>, s: string)
    requires Blank(s)
    ensures History(ops, s) == []
    decreases |ops|
  {
    if ops != [] { BlankIsEmpty(ops[..|ops| - 1], s); }
  }

  lemma ColumnsSameIff(m: Message)
    ensures Columns(m) == m <==> m.role.RoleText? && IsJson(m.rest)
  {
    DumpedSameIff(m.rest);
  }

  /** What the table answers, message by message: the role as text, and the other entries dumped and loaded. */
  lemma {:induction false} TableTells(ops: seq<Op>, n: Capacity, s: string, i: nat)
    requires i < |LastN(History(ops, s), n)|
    ensures var said := LastN(History(ops, s), n)[i];
            && |TableOf(TableRun(ops, n), s, n)| == |LastN(History(ops, s), n)|
            && TableOf(TableRun(ops, n), s, n)[i].rest == Dumped(said.rest)
            && (said.role.NoRole? ==> TableOf(TableRun(ops, n), s, n)[i].role == RoleText("unknown"))
            && (said.role.RoleText? ==> TableOf(TableRun(ops, n), s, n)[i].role == said.role)
            && (said.role.RoleObject? ==> TableOf(TableRun(ops, n), s, n)[i].role == RoleText(said.role.shown))
  {
    TableIsWindow(ops, n, s);
  }

  /** The two stores give the same answer exactly when the messages in the window are JSON with a string role. */
  lemma {:induction false} StoresAgree(ops: seq<Op>, n: Capacity, s: string)
    ensures TableOf(TableRun(ops, n), s, n) == MemoryOf(MemoryRun(ops, n), s) <==>
            forall m :: m in LastN(History(ops, s), n) ==> m.role.RoleText? && IsJson(m.rest)
  {
    TableIsWindow(ops, n, s);
    MemoryIsWindow(ops, n, s);
    SameColumnsIff(LastN(History(ops, s), n));
  }

  lemma SameColumnsIff(window: seq<Message>)
    ensures AllColumns(window) == window <==> forall m :: m in window ==> m.role.RoleText? && IsJson(m.rest)
  {
    forall i | 0 <= i < |window|
      ensures AllColumns(window)[i] == window[i] <==> window[i].role.RoleText? && IsJson(window[i].rest)
    {
      ColumnsSameIff(window[i]);
    }
  }

  // ---- the store objects --------------------------------------------------

  class InMemoryConversationStore {
    const capacity: Capacity
    var messages: Memory

    constructor (n: Capacity)
      ensures messages == map[] && capacity == n
    {
      capacity, messages := n, map[];
    }

    method Get(s: string) returns (answer: seq<Message>)
      ensures answer == MemoryOf(messages, s)
    {
      answer := [];
      if s in messages { answer := messages[s]; }
    }

    /** False stands for the ValueError on a blank session id. */
    method Append(s: string, added: seq<Message>) returns (ok: bool)
      modifies this
      ensures messages == MemoryStep(old(messages), Op.Append(s, added), capacity) && ok == !Blank(s)
    {
      if Blank(s) { return false; }
      if s !in messages { messages := messages[s := []]; }
      var history := messages[s] + added;
      messages := messages[s := history];
      if |history| > capacity { messages := messages[s := history[|history| - capacity..]]; }
      ok := true;
    }

    method Clear(s: string)
      modifies this
      ensures messages == MemoryStep(old(messages), Op.Clear(s), capacity)
    {
      messages := messages - {s};
    }
  }

  class SQLiteConversationStore {
    const capacity: Capacity
    var rows: seq<Row>

    constructor (n: Capacity)
      ensures rows == [] && capacity == n
    {
      capacity, rows := n, [];
    }

    method Get(s: string) returns (answer: seq<Message>)
      ensures answer == TableOf(rows, s, capacity)
    {
      if Blank(s) { return []; }
      answer := [];
      for i := 0 to |rows|
        invariant answer == Selected(rows[..i], s)
      {
        assert rows[..i + 1][..i] == rows[..i];
        if rows[i].session == s { answer := answer + [rows[i].message]; }
      }
      assert rows[..|rows|] == rows;
      if |answer| > capacity { answer := answer[|answer| - capacity..]; }
    }

    method Append(s: string, added: seq<Message>) returns (ok: bool)
      modifies this
      ensures rows == TableStep(old(rows), Op.Append(s, added), capacity) && ok == !Blank(s)
    {
      if Blank(s) { return false; }
      for i := 0 to |added|
        invariant rows == old(rows) + Inserted(s, added[..i])
      {
        rows := rows + [Row(s, Columns(added[i]))];
      }
      assert added[..|added|] == added;
      DeleteOlder(s, capacity);
      ok := true;
    }

    /** The DELETE, from the newest row back: of the session's rows the first `n` met stay. */
    method DeleteOlder(s: string, n: nat)
      modifies this
      ensures rows == Trim(old(rows), s, n)
    {
      var (kept, left, i) := ([], n, |rows|);
      assert rows[..i] == rows;
      while i > 0
        invariant 0 <= i <= |rows| && rows == old(rows)
        invariant Trim(rows[..i], s, left) + kept == Trim(rows, s, n)
      {
        i := i - 1;
        assert rows[..i + 1][..i] == rows[..i];
        if rows[i].session != s {
          kept := [rows[i]] + kept;
        } else if left > 0 {
          kept, left := [rows[i]] + kept, left - 1;
        }
      }
      rows := kept;
    }

    method Clear(s: string)
      modifies this
      ensures rows == TableStep(old(rows), Op.Clear(s), capacity)
    {
      DeleteOlder(s, 0);
    }
  }
}
