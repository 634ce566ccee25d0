/**
 * The ledger migration that re-spells decimals canonically and its inverse. The forward pass rewrites
 * payload texts and saves every text it changed; the reverse pass puts the saved texts back. Reading and
 * writing payload texts, rehashing fingerprints and digesting a ledger are arbitrary functions here.
 */
module Migration {
  import opened MoneyValue
  import opened MoneyText
  import opened Options

  // --- trees -----------------------------------------------------------------------------------

  datatype Json = Null | Bool(b: bool) | Number(text: string) | Str(text: string) | List(items: Items) | Object(fields: Fields)
  datatype Items = NoItems | Item(head: Json, tail: Items)
  datatype Fields = NoFields | Field(key: string, value: Json, rest: Fields)

  /** A decimal leaf: an object of the one field `d`, a string. */
  predicate IsDecimal(node: Json)
  {
    node.Object? && node.fields.Field? && node.fields.key == "d" && node.fields.value.Str? && node.fields.rest.NoFields?
  }

  function Decimal(text: string): Json
  {
    Object(Field("d", Str(text), NoFields))
  }

  /** The canonical spelling of what a text spells, if it spells a value within the bound. */
  function Respelling(text: string): Option<string>
  {
    var parsed := TryParse(text);
    if parsed.Ok? then Some(Canon(parsed.value)) else None
  }

  /** `respell`. */
  function Respell(node: Json): (r: Option<Json>)
  {
    if IsDecimal(node) then
      var text := Respelling(node.fields.value.text);
      if text.None? then None else Some(Decimal(text.value))
    else match node
      case Object(fields) =>
        var r := RespellFields(fields);
        if r.None? then None else Some(Object(r.value))
      case List(items) =>
        var r := RespellItems(items);
        if r.None? then None else Some(List(r.value))
      case _ => Some(node)
  }

  function RespellItems(items: Items): (r: Option<Items>)
  {
    match items
    case NoItems => Some(NoItems)
    case Item(head, tail) =>
      var h, t := Respell(head), RespellItems(tail);
      if h.None? || t.None? then None else Some(Item(h.value, t.value))
  }

  function RespellFields(fields: Fields): (r: Option<Fields>)
  {
    match fields
    case NoFields => Some(NoFields)
    case Field(key, value, rest) =>
      var v, t := Respell(value), RespellFields(rest);
      if v.None? || t.None? then None else Some(Field(key, v.value, t.value))
  }

  /** The same tree, but for decimal leaves, which hold the same value canonically spelled. */
  predicate SameBut(a: Json, b: Json)
  {
    if IsDecimal(a) then
      && IsDecimal(b) && TryParse(a.fields.value.text).Ok? && TryParse(b.fields.value.text) == TryParse(a.fields.value.text)
      && b.fields.value.text == Canon(TryParse(b.fields.value.text).value)
    else if a.Object? then b.Object? && !IsDecimal(b) && SameFields(a.fields, b.fields)
    else if a.List? then b.List? && SameItems(a.items, b.items)
    else a == b
  }

  predicate SameItems(a: Items, b: Items)
  {
    if a.Item? then b.Item? && SameBut(a.head, b.head) && SameItems(a.tail, b.tail) else a == b
  }

  predicate SameFields(a: Fields, b: Fields)
  {
    if a.Field? then b.Field? && a.key == b.key && SameBut(a.value, b.value) && SameFields(a.rest, b.rest) else a == b
  }

  lemma CanonicalText(text: string)
    requires Respelling(text).Some?
    ensures TryParse(Respelling(text).value) == TryParse(text)
    ensures Respelling(Respelling(text).value) == Respelling(text)
  {
    ParseCanon(TryParse(text).value);
  }

  /** Respelling keeps every decimal's value, spells it canonically, and changes nothing else in the tree. */
  lemma {:induction false} RespellSame(node: Json)
    requires Respell(node).Some?
    ensures SameBut(node, Respell(node).value)
  {
    if IsDecimal(node) {
      CanonicalText(node.fields.value.text);
    } else {
      match node
      case Object(fields) => RespellFieldsSame(fields);
      case List(items) => RespellItemsSame(items);
      case _ =>
    }
  }

  lemma {:induction false} RespellItemsSame(items: Items)
    requires RespellItems(items).Some?
    ensures SameItems(items, RespellItems(items).value)
  {
    if items.Item? {
      RespellSame(items.head);
      RespellItemsSame(items.tail);
    }
  }

  lemma {:induction false} RespellFieldsSame(fields: Fields)
    requires RespellFields(fields).Some?
    ensures SameFields(fields, RespellFields(fields).value)
  {
    if fields.Field? {
      RespellSame(fields.value);
      RespellFieldsSame(fields.rest);
    }
  }

  /** Respelling twice is respelling once. */
  lemma {:induction false} RespellIdempotent(node: Json)
    requires Respell(node).Some?
    ensures Respell(Respell(node).value) == Respell(node)
  {
    if IsDecimal(node) {
      CanonicalText(node.fields.value.text);
    } else {
      RespellSame(node);
      match node
      case Object(fields) => RespellFieldsIdempotent(fields);
      case List(items) => RespellItemsIdempotent(items);
      case _ =>
    }
  }

  lemma {:induction false} RespellItemsIdempotent(items: Items)
    requires RespellItems(items).Some?
    ensures RespellItems(RespellItems(items).value) == RespellItems(items)
  {
    if items.Item? {
      RespellIdempotent(items.head);
      RespellItemsIdempotent(items.tail);
    }
  }

  lemma {:induction false} RespellFieldsIdempotent(fields: Fields)
    requires RespellFields(fields).Some?
    ensures RespellFields(RespellFields(fields).value) == RespellFields(fields)
  {
    if fields.Field? {
      RespellIdempotent(fields.value);
      RespellFieldsIdempotent(fields.rest);
    }
  }

  // --- ledgers -------------------------------------------------------------------------------------

  datatype Table = Events | Outbox

  /** A row of a table with payloads; `rest` is every other column. */
  datatype Row = Row(key: int, kind: string, payload: string, rest: string)
  datatype Ledger = Ledger(events: seq<Row>, meta: seq<string>, outbox: seq<Row>)

  /** A saved text. */
  datatype Original = Original(table: Table, key: int, payload: string)

  /** The destination: complete only once every account's fold has compared equal. */
  datatype File = File(complete: bool, ledger: Ledger, originals: seq<Original>, sourceDigest: string)

  /** The functions on texts: reading one, storing an event's tree, dumping a tree, and a tree's new fingerprint. */
  datatype Codec = Codec(
    load: string -> Option<Json>, store: Json -> Option<string>, dump: Json -> string,
    rehash: (Json, Json) -> Option<string>, seal: (Json, string) -> Json)

  /** Tables come in key order, and keys are primary. */
  ghost predicate Keyed(rows: seq<Row>)
  {
    forall i, j :: 0 <= i < j < |rows| ==> rows[i].key < rows[j].key
  }

  /** An event's new text: respelled, its fingerprint rederived if it has one, then stored. */
  function EventText(codec: Codec, row: Row): Option<string>
  {
    match codec.load(row.payload)
    case None => None
    case Some(tree) =>
      match Respell(tree)
      case None => None
      case Some(respelled) =>
        if row.kind != "OrdersCreated" then codec.store(respelled)
        else match codec.rehash(tree, respelled)
          case None => None
          case Some(fingerprint) => codec.store(codec.seal(respelled, fingerprint))
  }

  /** An outbox row's new text; one that is no tree is left as it is. */
  function OutboxText(codec: Codec, row: Row): Option<string>
  {
    match codec.load(row.payload)
    case None => Some(row.payload)
    case Some(tree) =>
      match Respell(tree)
      case None => None
      case Some(respelled) => Some(codec.dump(respelled))
  }

  function NewText(codec: Codec, table: Table, row: Row): Option<string>
  {
    if table.Events? then EventText(codec, row) else OutboxText(codec, row)
  }

  function Saved(table: Table, row: Row, text: string): seq<Original>
  {
    if text != row.payload then [Original(table, row.key, row.payload)] else []
  }

  /** A table's new rows, and the texts saved from it; no answer if any row refuses. */
  function MigrateRows(codec: Codec, table: Table, rows: seq<Row>): (r: Option<(seq<Row>, seq<Original>)>)
  {
    if rows == [] then Some(([], []))
    else
      var row := rows[|rows| - 1];
      var before, text := MigrateRows(codec, table, rows[..|rows| - 1]), NewText(codec, table, row);
      if before.None? || text.None? then None
      else Some((before.value.0 + [row.(payload := text.value)], before.value.1 + Saved(table, row, text.value)))
  }

  /** `migrate`: the whole transform first, then the destination; `foldsAgree` is the comparison at the end. */
  function Migrate(codec: Codec, digest: Ledger -> string, l: Ledger, foldsAgree: bool): (r: (bool, Option<File>))
  {
    var events, outbox := MigrateRows(codec, Events, l.events), MigrateRows(codec, Outbox, l.outbox);
    if events.None? || outbox.None? then (false, None)
    else
      (foldsAgree, Some(File(foldsAgree, Ledger(events.value.0, l.meta, outbox.value.0),
                             events.value.1 + outbox.value.1, digest(l))))
  }

  /** The saved text of a row, if there is one; the table is a dictionary, so a later entry would win. */
  function Lookup(originals: seq<Original>, table: Table, key: int): (r: Option<string>)
  {
    if originals == [] then None
    else
      var o := originals[|originals| - 1];
      if o.table == table && o.key == key then Some(o.payload) else Lookup(originals[..|originals| - 1], table, key)
  }

  function RestoreRow(originals: seq<Original>, table: Table, row: Row): Row
  {
    var saved := Lookup(originals, table, row.key);
    if saved.Some? then row.(payload := saved.value) else row
  }

  function RestoreRows(originals: seq<Original>, table: Table, rows: seq<Row>): (r: seq<Row>)
    ensures |r| == |rows| && forall i :: 0 <= i < |rows| ==> r[i] == RestoreRow(originals, table, rows[i])
  {
    seq(|rows|, i requires 0 <= i < |rows| => RestoreRow(originals, table, rows[i]))
  }

  /** `reverse`: the restored ledger, and whether its digest is the recorded one. */
  function Reverse(digest: Ledger -> string, file: File): (r: Option<(Ledger, bool)>)
  {
    if !file.complete then None
    else
      var l := Ledger(RestoreRows(file.originals, Events, file.ledger.events), file.ledger.meta,
                      RestoreRows(file.originals, Outbox, file.ledger.outbox));
      Some((l, digest(l) == file.sourceDigest))
  }

  // --- the inverse ---------------------------------------------------------------------------------------

  lemma {:induction false} LookupAbsent(originals: seq<Original>, table: Table, key: int)
    requires forall i :: 0 <= i < |originals| ==> originals[i].table != table || originals[i].key != key
    ensures Lookup(originals, table, key) == None
  {
    if originals != [] {
      LookupAbsent(originals[..|originals| - 1], table, key);
    }
  }

  lemma {:induction false} LookupAppend(a: seq<Original>, b: seq<Original>, table: Table, key: int)
    ensures Lookup(a + b, table, key)
      == if Lookup(b, table, key).Some? then Lookup(b, table, key) else Lookup(a, table, key)
  {
    if b == [] {
      assert a + b == a;
    } else {
      LookupAppend(a, b[..|b| - 1], table, key);
      assert (a + b)[..|a + b| - 1] == a + b[..|b| - 1];
    }
  }

  /** What is saved belongs to rows of its table, among those migrated. */
  lemma {:induction false} SavedFrom(codec: Codec, table: Table, rows: seq<Row>, i: nat)
    requires MigrateRows(codec, table, rows).Some? && i < |MigrateRows(codec, table, rows).value.1|
    ensures var o := MigrateRows(codec, table, rows).value.1[i];
      o.table == table && exists j :: 0 <= j < |rows| && rows[j].key == o.key
  {
    var front := rows[..|rows| - 1];
    var before := MigrateRows(codec, table, front).value.1;
    if i < |before| {
      SavedFrom(codec, table, front, i);
      var j :| 0 <= j < |front| && front[j].key == before[i].key;
      assert rows[j].key == before[i].key;
    } else {
      assert rows[|rows| - 1].key == MigrateRows(codec, table, rows).value.1[i].key;
    }
  }

  /** The saved text of a row that was changed is found; of one that was not, nothing is. */
  ghost predicate SavedAt(row: Row, changed: Row, found: Option<string>)
  {
    && changed == row.(payload := changed.payload)
    && found == if changed.payload != row.payload then Some(row.payload) else None
  }

  lemma {:induction false} LookupSaved(codec: Codec, table: Table, rows: seq<Row>, i: nat, changed: seq<Row>, saved: seq<Original>)
    requires Keyed(rows) && MigrateRows(codec, table, rows) == Some((changed, saved)) && i < |rows|
    ensures |changed| == |rows| && SavedAt(rows[i], changed[i], Lookup(saved, table, rows[i].key))
    decreases |rows|, 1
  {
    FrontKeyed(rows);
    if i < |rows| - 1 {
      LookupFront(codec, table, rows, i, changed, saved);
    } else {
      LookupLast(codec, table, rows, changed, saved);
    }
  }

  lemma {:induction false} LookupFront(codec: Codec, table: Table, rows: seq<Row>, i: nat, changed: seq<Row>, saved: seq<Original>)
    requires i < |rows| - 1 && Keyed(rows[..|rows| - 1]) && rows[i].key != rows[|rows| - 1].key
    requires MigrateRows(codec, table, rows) == Some((changed, saved))
    ensures |changed| == |rows| && SavedAt(rows[i], changed[i], Lookup(saved, table, rows[i].key))
    decreases |rows|, 0
  {
    var before, found, text := LastMigrated(codec, table, rows);
    LookupSaved(codec, table, rows[..|rows| - 1], i, before, found);
    SavedEarlier(before, found, table, rows[i], rows[|rows| - 1], text, i);
  }

  lemma LookupLast(codec: Codec, table: Table, rows: seq<Row>, changed: seq<Row>, saved: seq<Original>)
    requires rows != [] && MigrateRows(codec, table, rows) == Some((changed, saved))
    requires NoKey(rows[..|rows| - 1], rows[|rows| - 1].key)
    ensures var n := |rows| - 1; |changed| == |rows| && SavedAt(rows[n], changed[n], Lookup(saved, table, rows[n].key))
  {
    var before, found, text := LastMigrated(codec, table, rows);
    NothingSaved(codec, table, rows[..|rows| - 1], rows[|rows| - 1].key);
    SavedLast(before, found, table, rows[|rows| - 1], text);
  }

  lemma FrontKeyed(rows: seq<Row>)
    requires Keyed(rows) && rows != []
    ensures Keyed(rows[..|rows| - 1])
    ensures forall i :: 0 <= i < |rows| - 1 ==> rows[i].key != rows[|rows| - 1].key
    ensures NoKey(rows[..|rows| - 1], rows[|rows| - 1].key)
  {
  }

  ghost predicate NoKey(rows: seq<Row>, key: int)
  {
    forall i :: 0 <= i < |rows| ==> rows[i].key != key
  }

  /** What migrating adds for the last row. */
  lemma LastMigrated(codec: Codec, table: Table, rows: seq<Row>)
    returns (before: seq<Row>, saved: seq<Original>, text: string)
    requires rows != [] && MigrateRows(codec, table, rows).Some?
    ensures var front, last := rows[..|rows| - 1], rows[|rows| - 1];
      && MigrateRows(codec, table, front) == Some((before, saved)) && |before| == |front|
      && MigrateRows(codec, table, rows) == Some((before + [last.(payload := text)], saved + Saved(table, last, text)))
  {
    var front, last := rows[..|rows| - 1], rows[|rows| - 1];
    before, saved := MigrateRows(codec, table, front).value.0, MigrateRows(codec, table, front).value.1;
    text := NewText(codec, table, last).value;
    SizeKept(codec, table, front);
  }

  /** An earlier row's answer is not disturbed by the last row. */
  lemma SavedEarlier(before: seq<Row>, found: seq<Original>, table: Table, row: Row, last: Row, text: string, i: nat)
    requires i < |before| && row.key != last.key && SavedAt(row, before[i], Lookup(found, table, row.key))
    ensures SavedAt(row, (before + [last.(payload := text)])[i], Lookup(found + Saved(table, last, text), table, row.key))
  {
    LookupNext(found, table, last, text, row.key);
  }

  lemma SavedLast(before: seq<Row>, found: seq<Original>, table: Table, last: Row, text: string)
    requires Lookup(found, table, last.key) == None
    ensures SavedAt(last, (before + [last.(payload := text)])[|before|], Lookup(found + Saved(table, last, text), table, last.key))
  {
    LookupNext(found, table, last, text, last.key);
  }

  /** What the last row saves is found under its own key, and hides nothing saved under another. */
  lemma LookupNext(before: seq<Original>, table: Table, last: Row, text: string, key: int)
    ensures Lookup(before + Saved(table, last, text), table, key)
      == if key == last.key && text != last.payload then Some(last.payload) else Lookup(before, table, key)
  {
    LookupAppend(before, Saved(table, last, text), table, key);
    assert Saved(table, last, text)[..0] == [];
  }

  lemma NothingSaved(codec: Codec, table: Table, rows: seq<Row>, key: int)
    requires MigrateRows(codec, table, rows).Some? && NoKey(rows, key)
    ensures Lookup(MigrateRows(codec, table, rows).value.1, table, key) == None
  {
    var saved := MigrateRows(codec, table, rows).value.1;
    forall k | 0 <= k < |saved|
      ensures saved[k].key != key
    {
      SavedFrom(codec, table, rows, k);
    }
    LookupAbsent(saved, table, key);
  }

  lemma {:induction false} SizeKept(codec: Codec, table: Table, rows: seq<Row>)
    requires MigrateRows(codec, table, rows).Some?
    ensures |MigrateRows(codec, table, rows).value.0| == |rows|
  {
    if rows != [] {
      SizeKept(codec, table, rows[..|rows| - 1]);
    }
  }

  /** One table's saved texts say nothing of another's rows. */
  lemma OtherTable(codec: Codec, table: Table, rows: seq<Row>, other: Table, key: int)
    requires MigrateRows(codec, table, rows).Some? && other != table
    ensures Lookup(MigrateRows(codec, table, rows).value.1, other, key) == None
  {
    var saved := MigrateRows(codec, table, rows).value.1;
    forall k | 0 <= k < |saved|
      ensures saved[k].table != other
    {
      SavedFrom(codec, table, rows, k);
    }
    LookupAbsent(saved, other, key);
  }

  lemma RestoresTable(codec: Codec, table: Table, rows: seq<Row>, originals: seq<Original>)
    requires Keyed(rows) && MigrateRows(codec, table, rows).Some?
    requires forall key :: Lookup(originals, table, key) == Lookup(MigrateRows(codec, table, rows).value.1, table, key)
    ensures RestoreRows(originals, table, MigrateRows(codec, table, rows).value.0) == rows
  {
    SizeKept(codec, table, rows);
    var changed := MigrateRows(codec, table, rows).value.0;
    forall i | 0 <= i < |rows|
      ensures RestoreRow(originals, table, changed[i]) == rows[i]
    {
      LookupSaved(codec, table, rows, i, changed, MigrateRows(codec, table, rows).value.1);
    }
  }

  /** A completed migration reversed gives back every row of every table, and the digests agree. */
  lemma ReverseUndoes(codec: Codec, digest: Ledger -> string, l: Ledger)
    requires Keyed(l.events) && Keyed(l.outbox) && Migrate(codec, digest, l, true).0
    ensures Migrate(codec, digest, l, true).1.Some?
    ensures Reverse(digest, Migrate(codec, digest, l, true).1.value) == Some((l, true))
  {
    var events, outbox := MigrateRows(codec, Events, l.events).value.1, MigrateRows(codec, Outbox, l.outbox).value.1;
    forall key
      ensures Lookup(events + outbox, Events, key) == Lookup(events, Events, key)
      ensures Lookup(events + outbox, Outbox, key) == Lookup(outbox, Outbox, key)
    {
      LookupAppend(events, outbox, Events, key);
      LookupAppend(events, outbox, Outbox, key);
      OtherTable(codec, Outbox, l.outbox, Events, key);
      OtherTable(codec, Events, l.events, Outbox, key);
    }
    RestoresTable(codec, Events, l.events, events + outbox);
    RestoresTable(codec, Outbox, l.outbox, events + outbox);
  }

  lemma {:induction false} RowsRefuse(codec: Codec, table: Table, rows: seq<Row>)
    ensures MigrateRows(codec, table, rows).None? <==> exists i :: 0 <= i < |rows| && NewText(codec, table, rows[i]).None?
  {
    if rows != [] {
      RowsRefuse(codec, table, rows[..|rows| - 1]);
      assert rows == rows[..|rows| - 1] + [rows[|rows| - 1]];
    }
  }

  /**
   * There is a destination exactly when every row can be transformed, so one refusal leaves none; and a
   * destination whose folds disagree stays incomplete, which the reverse refuses.
   */
  lemma RefusalLeavesNothing(codec: Codec, digest: Ledger -> string, l: Ledger, foldsAgree: bool)
    ensures Migrate(codec, digest, l, foldsAgree).1.None? <==>
      || (exists i :: 0 <= i < |l.events| && NewText(codec, Events, l.events[i]).None?)
      || (exists i :: 0 <= i < |l.outbox| && NewText(codec, Outbox, l.outbox[i]).None?)
    ensures Migrate(codec, digest, l, foldsAgree).1.Some? && !foldsAgree ==>
      !Migrate(codec, digest, l, foldsAgree).0 && Reverse(digest, Migrate(codec, digest, l, foldsAgree).1.value) == None
  {
    RowsRefuse(codec, Events, l.events);
    RowsRefuse(codec, Outbox, l.outbox);
  }

  // --- the loops -------------------------------------------------------------------------------------------

  lemma {:induction false} RefusedPrefix(codec: Codec, table: Table, rows: seq<Row>, n: nat)
    requires n <= |rows| && MigrateRows(codec, table, rows[..n]).None?
    ensures MigrateRows(codec, table, rows).None?
    decreases |rows| - n
  {
    if n < |rows| {
      assert rows[..n + 1][..n] == rows[..n];
      RefusedPrefix(codec, table, rows, n + 1);
    } else {
      assert rows[..n] == rows;
    }
  }

  lemma MigrateStep(codec: Codec, table: Table, rows: seq<Row>, i: nat)
    requires i < |rows| && MigrateRows(codec, table, rows[..i]).Some?
    ensures var done, text := MigrateRows(codec, table, rows[..i]).value, NewText(codec, table, rows[i]);
      MigrateRows(codec, table, rows[..i + 1])
      == if text.None? then None
         else Some((done.0 + [rows[i].(payload := text.value)], done.1 + Saved(table, rows[i], text.value)))
  {
    assert rows[..i + 1][..i] == rows[..i] && rows[..i + 1][i] == rows[i];
  }

  /** One table, row by row, building the new rows and the saved texts. */
  method MigrateTable(codec: Codec, table: Table, rows: seq<Row>) returns (r: Option<(seq<Row>, seq<Original>)>)
    ensures r == MigrateRows(codec, table, rows)
  {
    var changed: seq<Row>, originals: seq<Original>, i := [], [], 0;
    while i < |rows|
      invariant 0 <= i <= |rows| && MigrateRows(codec, table, rows[..i]) == Some((changed, originals))
    {
      MigrateStep(codec, table, rows, i);
      var text := NewText(codec, table, rows[i]);
      if text.None? {
        RefusedPrefix(codec, table, rows, i + 1);
        return None;
      }
      changed := changed + [rows[i].(payload := text.value)];
      originals := originals + Saved(table, rows[i], text.value);
      i := i + 1;
    }
    assert rows[..i] == rows;
    r := Some((changed, originals));
  }

  method RestoreTable(originals: seq<Original>, table: Table, rows: seq<Row>) returns (out: seq<Row>)
    ensures out == RestoreRows(originals, table, rows)
  {
    out := [];
    var i := 0;
    while i < |rows|
      invariant 0 <= i <= |rows| && |out| == i
      invariant forall j :: 0 <= j < i ==> out[j] == RestoreRow(originals, table, rows[j])
    {
      var row := rows[i];
      var saved := Lookup(originals, table, row.key);
      if saved.Some? {
        row := row.(payload := saved.value);
      }
      out := out + [row];
      i := i + 1;
    }
  }
}
