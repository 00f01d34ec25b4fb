/** The data tab: every `coa_data` row of the organisation with its attachment join flattened
    into two top-level fields, and a free-text search that keeps the rows with some field whose
    text contains the search text, ignoring case. A row is a plain object, modelled as its
    fields in order; every field value is already a string, `null`, or the nested join object. */
module DataTable {
  import opened Seqs
  import opened Text
  import opened OrderedMaps

  /** A field value: `null`, a value whose `String(...)` is `s`, or the nested
      `attachments_read` object `{ file_url, attachment_file_name }`. */
  datatype Value = Null | Scalar(s: string) | Join(fileUrl: Option<string>, fileName: Option<string>)

  /** A row object: its own fields in order. */
  type Record = OrderedMap<Value>

  const JoinField: string := "attachments_read"
  const UrlField: string := "attachment_url"
  const FileNameField: string := "attachment_file_name"

  /** `x ?? null` on a column of the join. */
  function OrNull(x: Option<string>): Value
  {
    match x
    case Some(s) => Scalar(s)
    case None => Null
  }

  /** `row.attachments_read?.file_url ?? null`: `null` when the join is absent. */
  function AttachmentUrl(row: Record): Value
  {
    var join := Get(row, JoinField);
    if join.Some? && join.value.Join? then OrNull(join.value.fileUrl) else Null
  }

  /** `row.attachments_read?.attachment_file_name ?? null`. */
  function AttachmentFileName(row: Record): Value
  {
    var join := Get(row, JoinField);
    if join.Some? && join.value.Join? then OrNull(join.value.fileName) else Null
  }

  /** `{ ...row, attachment_url: ..., attachment_file_name: ... }`: the spread copies the fields
      in order, and the two assignments overwrite a field of that name where it is or add it at
      the end. */
  function Flatten(row: Record): (r: Record)
    ensures Get(r, UrlField) == Some(AttachmentUrl(row))
    ensures Get(r, FileNameField) == Some(AttachmentFileName(row))
  {
    var once := Put(row, UrlField, AttachmentUrl(row));
    GetPut(row, UrlField, AttachmentUrl(row), UrlField);
    GetPut(once, FileNameField, AttachmentFileName(row), UrlField);
    GetPut(once, FileNameField, AttachmentFileName(row), FileNameField);
    Put(once, FileNameField, AttachmentFileName(row))
  }

  /** `data.map(...)` with `Flatten`. */
  function FlattenAll(data: seq<Record>): (r: seq<Record>)
    ensures |r| == |data| && forall i :: 0 <= i < |data| ==> r[i] == Flatten(data[i])
  {
    seq(|data|, i requires 0 <= i < |data| => Flatten(data[i]))
  }

  /** Flattening keeps every original field, the join included, in its place, and adds no
      field but the two attachment fields. */
  lemma {:induction false} FlattenFields(row: Record)
    ensures forall k :: k != UrlField && k != FileNameField ==> Get(Flatten(row), k) == Get(row, k)
    ensures Keys(row) <= Keys(Flatten(row))
    ensures forall k :: k in Keys(Flatten(row)) <==> k in Keys(row) || k == UrlField || k == FileNameField
  {
    var once := Put(row, UrlField, AttachmentUrl(row));
    forall k ensures Get(Flatten(row), k) == if k == FileNameField then Some(AttachmentFileName(row))
                                             else if k == UrlField then Some(AttachmentUrl(row))
                                             else Get(row, k) {
      GetPut(once, FileNameField, AttachmentFileName(row), k);
      GetPut(row, UrlField, AttachmentUrl(row), k);
    }
    PutKeys(row, UrlField, AttachmentUrl(row));
    PutKeys(once, FileNameField, AttachmentFileName(row));
  }

  /** `String(v ?? "")`: `null` reads as the empty string, and the join object as
      `[object Object]`. */
  function Stringify(v: Value): string
  {
    match v
    case Null => ""
    case Scalar(s) => s
    case Join(_, _) => "[object Object]"
  }

  /** `Object.values(row).some((v) => String(v ?? "").toLowerCase().includes(needle))`, with
      `needle` already lower-cased. */
  function SomeFieldContains(fields: Record, needle: string): bool
  {
    if fields == [] then false
    else Contains(Lower(Stringify(fields[0].1)), needle) || SomeFieldContains(fields[1..], needle)
  }

  /** The search predicate of `handleFilter`. */
  predicate Matches(row: Record, text: string)
  {
    SomeFieldContains(row, Lower(text))
  }

  /** A row matches exactly when one of its fields, as text and lower-cased, contains the
      lower-cased search text. */
  lemma {:induction false} MatchesSomeField(row: Record, text: string)
    ensures Matches(row, text) <==>
      exists i :: 0 <= i < |row| && Contains(Lower(Stringify(row[i].1)), Lower(text))
  {
    SomeFieldContainsAt(row, Lower(text));
  }

  lemma {:induction false} SomeFieldContainsAt(fields: Record, needle: string)
    ensures SomeFieldContains(fields, needle) <==>
      exists i :: 0 <= i < |fields| && Contains(Lower(Stringify(fields[i].1)), needle)
  {
    if fields != [] {
      SomeFieldContainsAt(fields[1..], needle);
      if SomeFieldContains(fields[1..], needle) {
        var i :| 0 <= i < |fields[1..]| && Contains(Lower(Stringify(fields[1..][i].1)), needle);
        assert fields[i + 1] == fields[1..][i];
      }
      forall i | 1 <= i < |fields| && Contains(Lower(Stringify(fields[i].1)), needle)
        ensures SomeFieldContains(fields[1..], needle)
      {
        assert fields[1..][i - 1] == fields[i];
      }
    }
  }

  /** `rows.filter(...)` by the search text: always over all rows, never over the previous
      result. */
  function Search(rows: seq<Record>, text: string): (r: seq<Record>)
    ensures IsSubsequence(r, rows)
    ensures forall row :: row in r <==> row in rows && Matches(row, text)
  {
    if rows == [] then []
    else
      var rest := Search(rows[1..], text);
      assert forall row :: row in rows <==> row == rows[0] || row in rows[1..];
      if Matches(rows[0], text) then [rows[0]] + rest
      else
        assert rest != [] ==> IsSubsequence(rest, rows[1..]);
        rest
  }

  /** The search is `Filter` with the search predicate; it is written out so that its lemmas
      unfold it directly. */
  lemma {:induction false} SearchIsFilter(rows: seq<Record>, text: string)
    ensures Search(rows, text) == Filter(rows, (row: Record) => Matches(row, text))
  {
    if rows != [] {
      SearchIsFilter(rows[1..], text);
    }
  }

  /** The empty text keeps every row with at least one field, and only those. */
  lemma {:induction false} SearchEmptyText(rows: seq<Record>)
    ensures forall row :: row in Search(rows, "") <==> row in rows && |row| > 0
  {
    forall row: Record | |row| > 0 ensures Matches(row, "") {
      ContainsEmpty(Lower(Stringify(row[0].1)));
      MatchesSomeField(row, "");
    }
  }

  /** Searching the result again with the same text changes nothing. */
  lemma {:induction false} SearchIdempotent(rows: seq<Record>, text: string)
    ensures Search(Search(rows, text), text) == Search(rows, text)
  {
    var r := Search(rows, text);
    assert forall i :: 0 <= i < |r| ==> r[i] in r;
    SearchKeepsAll(r, text);
  }

  /** When every row matches, the search keeps them all. */
  lemma {:induction false} SearchKeepsAll(rows: seq<Record>, text: string)
    requires forall i :: 0 <= i < |rows| ==> Matches(rows[i], text)
    ensures Search(rows, text) == rows
  {
    if rows != [] {
      SearchKeepsAll(rows[1..], text);
    }
  }

  /** Only the lower-cased text matters: `ASH` and `ash` find the same rows. */
  lemma {:induction false} SearchIgnoresCase(rows: seq<Record>, text: string)
    ensures Search(rows, Lower(text)) == Search(rows, text)
  {
    if rows != [] {
      LowerIdempotent(text);
      SearchIgnoresCase(rows[1..], text);
    }
  }

  /** A row holding a join object matches the text `object`, whatever its columns contain,
      because the object's text is `[object Object]`. */
  lemma {:induction false} JoinedRowsMatchObject(row: Record)
    requires Get(row, JoinField).Some? && Get(row, JoinField).value.Join?
    ensures Matches(row, "object")
  {
    GetFindsKey(row, JoinField);
    var i :| 0 <= i < |row| && row[i] == (JoinField, Get(row, JoinField).value);
    JoinTextContainsObject(row[i].1);
    MatchesSomeField(row, "object");
  }

  lemma {:induction false} JoinTextContainsObject(v: Value)
    requires v.Join?
    ensures Contains(Lower(Stringify(v)), Lower("object"))
  {
    assert Lower("object") == "object";
    var t := Lower("[object Object]");
    assert t[1..7] == "object";
    assert OccursAt(t, "object", 1);
    ContainsAt(t, "object");
  }

  /** The state of the tab: `rows`, `filtered` and `filterText`. */
  datatype TableState = TableState(rows: seq<Record>, filtered: seq<Record>, filterText: string)

  function Initial(): TableState
  {
    TableState([], [], "")
  }

  /** The rows on screen are the search result of the text in the box. */
  predicate Consistent(st: TableState)
  {
    st.filtered == Search(st.rows, st.filterText)
  }

  /** The end of `load`: with a response (no error, the component still mounted) both `rows`
      and `filtered` become the flattened rows; otherwise nothing changes. The search text is
      left as it is. */
  function Load(st: TableState, response: Option<seq<Record>>): (r: TableState)
    ensures response.None? ==> r == st
    ensures response.Some? ==> r.rows == r.filtered == FlattenAll(response.value)
    ensures r.filterText == st.filterText
  {
    match response
    case Some(data) => st.(rows := FlattenAll(data), filtered := FlattenAll(data))
    case None => st
  }

  /** `handleFilter(text)`: the box gets the text and the table shows, in order, exactly the
      loaded rows the text matches. */
  function HandleFilter(st: TableState, text: string): (r: TableState)
    ensures r.rows == st.rows && r.filterText == text
    ensures IsSubsequence(r.filtered, st.rows)
    ensures forall row :: row in r.filtered <==> row in st.rows && Matches(row, text)
  {
    st.(filterText := text, filtered := Search(st.rows, text))
  }

  lemma {:induction false} InitialConsistent()
    ensures Consistent(Initial())
  {
  }

  /** Typing always leaves the table consistent with the box, and repeating the same text
      changes nothing. */
  lemma {:induction false} HandleFilterConsistent(st: TableState, text: string)
    ensures Consistent(HandleFilter(st, text))
    ensures HandleFilter(HandleFilter(st, text), text) == HandleFilter(st, text)
  {
  }

  /** A flattened row always has at least the two attachment fields. */
  lemma {:induction false} FlattenNotEmpty(row: Record)
    ensures |Flatten(row)| > 0
  {
    FlattenFields(row);
    assert UrlField in Keys(Flatten(row));
  }

  /** With an empty search box a load leaves the table consistent. */
  lemma {:induction false} LoadWithoutTextConsistent(st: TableState, data: seq<Record>)
    requires st.filterText == ""
    ensures Consistent(Load(st, Some(data)))
  {
    var rows := FlattenAll(data);
    SearchEmptyText(rows);
    forall row | row in rows ensures |row| > 0 {
      var i :| 0 <= i < |data| && rows[i] == row;
      FlattenNotEmpty(data[i]);
    }
    SearchKeepsAll(rows, "");
  }

  /** With text in the box a reload shows rows the text does not match: a row `{ id: "1" }`
      without attachment, reloaded while the box says `zzz`. */
  lemma {:induction false} ReloadIgnoresSearchText()
    ensures var st := Load(TableState([], [], "zzz"), Some([[("id", Scalar("1"))]]));
            !Consistent(st) && st.filtered != [] && Search(st.rows, st.filterText) == []
  {
    var row: Record := [("id", Scalar("1"))];
    var flat := Flatten(row);
    FlattenFields(row);
    assert AttachmentUrl(row) == Null && AttachmentFileName(row) == Null;
    assert "id" != UrlField && "id" != FileNameField && UrlField != FileNameField;
    var once: Record := [("id", Scalar("1")), (UrlField, Null)];
    assert Put(row, UrlField, Null) == once;
    assert once[1..] == [(UrlField, Null)];
    assert Put(once[1..], FileNameField, Null) == [(UrlField, Null), (FileNameField, Null)];
    assert Put(once, FileNameField, Null) == [("id", Scalar("1")), (UrlField, Null), (FileNameField, Null)];
    assert flat == [("id", Scalar("1")), (UrlField, Null), (FileNameField, Null)];
    MatchesSomeField(flat, "zzz");
    assert !Contains(Lower("1"), "zzz");
    assert !Contains(Lower(""), "zzz");
    var st := Load(TableState([], [], "zzz"), Some([row]));
    assert st.rows == [flat];
    assert !Matches(flat, "zzz");
    assert flat !in Search(st.rows, "zzz");
  }
}
