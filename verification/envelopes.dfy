/**
 * The envelope script's row logic: the address lines built from one CSV row,
 * the rows still to be plotted, and the update that records a finished envelope.
 * A row is a map from column name to cell text, as `csv.DictReader` yields it.
 */
module Envelopes {
  import opened Wrappers
  import opened PyStrings

  type Row = map<string, string>

  /** `row.get(k, "")`. */
  function Get(row: Row, k: string): string
  {
    if k in row then row[k] else ""
  }

  // ---------------------------------------------------------------- address lines

  /** The strings of `xs` that are not empty, in order. */
  function NonEmpty(xs: seq<string>): (ys: seq<string>)
    ensures |ys| <= |xs|
    ensures forall i :: 0 <= i < |ys| ==> ys[i] != ""
    ensures forall s :: s in ys <==> s in xs && s != ""
  {
    if |xs| == 0 then []
    else (if xs[0] == "" then [] else [xs[0]]) + NonEmpty(xs[1..])
  }

  /** The text of a field: the cell with surrounding whitespace removed, "" when the column is missing. */
  function Field(row: Row, k: string): string
  {
    Strip(Get(row, k))
  }

  /** A field as a line of its own, or no line when it is empty. */
  function Part(s: string): seq<string>
  {
    if s == "" then [] else [s]
  }

  /** The address lines assembled from the five stripped fields. */
  function Assemble(name: string, address: string, line2: string, cityState: string, zip: string): (lines: seq<string>)
    ensures |lines| <= 4
    ensures forall i :: 0 <= i < |lines| ==> lines[i] != ""
  {
    var last :=
      if cityState != "" && zip != "" then [cityState + " " + zip]
      else if cityState != "" then [cityState]
      else if zip != "" then [zip]
      else [];
    Part(name) + Part(address) + Part(line2) + last
  }

  /** `build_address_lines`: name, street, second line, then city and zip, skipping empty fields. */
  function BuildAddressLines(row: Row): (lines: seq<string>)
    ensures |lines| <= 4
    ensures forall i :: 0 <= i < |lines| ==> lines[i] != ""
  {
    Assemble(Field(row, "Name"), Field(row, "Address"), Field(row, "Line2"), Field(row, "City State"), Field(row, "Zip"))
  }

  /** Two stripped words joined by one space are still stripped. */
  lemma JoinedStripped(a: string, b: string)
    requires a != "" && b != "" && IsStripped(a) && IsStripped(b)
    ensures IsStripped(a + " " + b)
  {
    var t := a + " " + b;
    assert t[0] == a[0];
    assert t[|t| - 1] == b[|b| - 1];
  }

  /** Every address line is free of surrounding whitespace. */
  lemma AddressLinesStripped(row: Row)
    ensures forall i :: 0 <= i < |BuildAddressLines(row)| ==> IsStripped(BuildAddressLines(row)[i])
  {
    var name, address, line2 := Field(row, "Name"), Field(row, "Address"), Field(row, "Line2");
    var cityState, zip := Field(row, "City State"), Field(row, "Zip");
    if cityState != "" && zip != "" {
      JoinedStripped(cityState, zip);
    }
    var lines := Assemble(name, address, line2, cityState, zip);
    forall i | 0 <= i < |lines| ensures IsStripped(lines[i]) {
      AssembledFrom(name, address, line2, cityState, zip, i);
    }
  }

  /** Each assembled line is one of the fields or city and zip joined. */
  lemma AssembledFrom(name: string, address: string, line2: string, cityState: string, zip: string, i: nat)
    requires i < |Assemble(name, address, line2, cityState, zip)|
    ensures var line := Assemble(name, address, line2, cityState, zip)[i];
            || line in {name, address, line2, cityState, zip}
            || (cityState != "" && zip != "" && line == cityState + " " + zip)
  {
  }

  lemma NonEmptyFour(a: string, b: string, c: string, d: string)
    ensures NonEmpty([a, b, c, d]) == Part(a) + Part(b) + Part(c) + Part(d)
  {
    var xs := [a, b, c, d];
    assert xs[1..] == [b, c, d];
    assert xs[1..][1..] == [c, d];
    assert xs[1..][1..][1..] == [d];
    assert xs[1..][1..][1..][1..] == [];
    assert NonEmpty([d]) == Part(d);
    assert NonEmpty([c, d]) == Part(c) + Part(d);
    assert NonEmpty([b, c, d]) == Part(b) + (Part(c) + Part(d));
  }

  /** The assembly as a filter: the four parts in order, the empty ones dropped. */
  lemma AssembleInOrder(name: string, address: string, line2: string, cityState: string, zip: string)
    ensures Assemble(name, address, line2, cityState, zip) ==
            NonEmpty([name, address, line2, JoinSpace(NonEmpty([cityState, zip]))])
  {
    var cz := NonEmpty([cityState, zip]);
    assert [cityState, zip][1..] == [zip];
    assert [zip][1..] == [];
    assert NonEmpty([zip]) == Part(zip);
    assert cz == Part(cityState) + Part(zip);
    var last :=
      if cityState != "" && zip != "" then [cityState + " " + zip]
      else if cityState != "" then [cityState]
      else if zip != "" then [zip]
      else [];
    assert last == Part(JoinSpace(cz)) by {
      if cityState != "" && zip != "" {
        assert cz == [cityState, zip];
        assert cz[1..] == [zip];
        assert JoinSpace(cz) == cityState + " " + zip;
      }
    }
    NonEmptyFour(name, address, line2, JoinSpace(cz));
  }

  /**
   * The address lines are the four parts in order (name, address, second line,
   * and city and zip joined by one space), with the empty ones dropped.
   */
  lemma AddressLinesInOrder(row: Row)
    ensures BuildAddressLines(row) ==
      NonEmpty([Field(row, "Name"), Field(row, "Address"), Field(row, "Line2"),
                JoinSpace(NonEmpty([Field(row, "City State"), Field(row, "Zip")]))])
  {
    AssembleInOrder(Field(row, "Name"), Field(row, "Address"), Field(row, "Line2"), Field(row, "City State"), Field(row, "Zip"));
  }

  /** When city and zip are both present they share the last line, joined by a single space. */
  lemma CityAndZipShareLine(row: Row)
    requires Field(row, "City State") != "" && Field(row, "Zip") != ""
    ensures var lines := BuildAddressLines(row);
            |lines| > 0 && lines[|lines| - 1] == Field(row, "City State") + " " + Field(row, "Zip")
  {
  }

  /** When only one of city and zip is present it is the last line; with neither there is no such line. */
  lemma CityOrZipAlone(row: Row)
    ensures var lines := BuildAddressLines(row);
            && (Field(row, "City State") != "" && Field(row, "Zip") == "" ==>
                  |lines| > 0 && lines[|lines| - 1] == Field(row, "City State"))
            && (Field(row, "City State") == "" && Field(row, "Zip") != "" ==>
                  |lines| > 0 && lines[|lines| - 1] == Field(row, "Zip"))
            && (Field(row, "City State") == "" && Field(row, "Zip") == "" ==>
                  lines == Part(Field(row, "Name")) + Part(Field(row, "Address")) + Part(Field(row, "Line2")))
  {
  }

  /** A non-empty name always comes first. */
  lemma NameComesFirst(row: Row)
    requires Field(row, "Name") != ""
    ensures |BuildAddressLines(row)| > 0 && BuildAddressLines(row)[0] == Field(row, "Name")
  {
  }

  // ---------------------------------------------------------------- rows still to do

  /** `a.get("Done", "").strip().upper() == "TRUE"`: the envelope was already plotted. */
  predicate IsDone(row: Row)
  {
    Upper(Strip(Get(row, "Done"))) == "TRUE"
  }

  /** The rows not yet done, in their original order. */
  function Todo(rows: seq<Row>): (todo: seq<Row>)
    ensures |todo| <= |rows|
    decreases |rows|
  {
    if |rows| == 0 then []
    else
      var last := rows[|rows| - 1];
      Todo(rows[..|rows| - 1]) + (if IsDone(last) then [] else [last])
  }

  /** The number of rows marked done, counted from the front. */
  function DoneRows(rows: seq<Row>): nat
    decreases |rows|
  {
    if |rows| == 0 then 0 else (if IsDone(rows[0]) then 1 else 0) + DoneRows(rows[1..])
  }

  /** Filtering distributes over concatenation: relative order is kept. */
  lemma {:induction false} TodoAppend(a: seq<Row>, b: seq<Row>)
    ensures Todo(a + b) == Todo(a) + Todo(b)
    decreases |b|
  {
    if |b| == 0 {
      assert a + b == a;
    } else {
      var b' := b[..|b| - 1];
      assert (a + b)[..|a + b| - 1] == a + b';
      TodoAppend(a, b');
    }
  }

  /** A row is kept exactly when it is one of the rows and is not done. */
  lemma {:induction false} TodoMembers(rows: seq<Row>)
    ensures forall r :: r in Todo(rows) <==> r in rows && !IsDone(r)
    decreases |rows|
  {
    if |rows| > 0 {
      var init := rows[..|rows| - 1];
      TodoMembers(init);
      assert rows == init + [rows[|rows| - 1]];
    }
  }

  /** `done_count = len(addresses) - len(todo)` is the number of rows marked done. */
  lemma {:induction false} DoneCountCountsDone(rows: seq<Row>)
    ensures |rows| - |Todo(rows)| == DoneRows(rows)
    decreases |rows|
  {
    if |rows| > 0 {
      DoneCountCountsDone(rows[1..]);
      TodoAppend([rows[0]], rows[1..]);
      assert [rows[0]] + rows[1..] == rows;
      assert [rows[0]][..0] == [];
    }
  }

  /** Filtering twice changes nothing. */
  lemma TodoIdempotent(rows: seq<Row>)
    ensures Todo(Todo(rows)) == Todo(rows)
  {
    TodoMembers(rows);
    TodoKeepsUndone(Todo(rows));
  }

  /** Rows none of which is done pass through the filter unchanged. */
  lemma {:induction false} TodoKeepsUndone(rows: seq<Row>)
    requires forall i :: 0 <= i < |rows| ==> !IsDone(rows[i])
    ensures Todo(rows) == rows
    decreases |rows|
  {
    if |rows| > 0 {
      TodoKeepsUndone(rows[..|rows| - 1]);
    }
  }

  /** The "Done" cell is read ignoring ASCII case and surrounding whitespace. */
  lemma DoneIgnoresCaseAndPadding(row: Row, w1: string, s: string, w2: string)
    requires AllSpace(w1) && AllSpace(w2)
    requires Upper(s) == "TRUE"
    ensures IsDone(row["Done" := w1 + s + w2])
  {
    StripIgnoresPadding(w1, s, w2);
    StripUpperIgnoresCase(s, "TRUE");
    assert IsStripped("TRUE");
    StripOfStripped("TRUE");
    StripOfStripped(s);
  }

  // ---------------------------------------------------------------- marking a row done

  /** The row belongs to the named recipient: stripped names are equal. */
  predicate Matches(row: Row, name: string)
    requires "Name" in row
  {
    Strip(row["Name"]) == Strip(name)
  }

  /** The loop body of `mark_done`: `row["Done"] = "TRUE"` on a matching row. */
  function MarkRow(row: Row, name: string): Row
    requires "Name" in row
  {
    if Matches(row, name) then row["Done" := "TRUE"] else row
  }

  /**
   * The row update of `mark_done`: every row whose name matches gets
   * `Done = "TRUE"`. `row["Name"]` raises KeyError on a row with no Name
   * column, and nothing is written then: that is None.
   */
  function MarkDone(rows: seq<Row>, name: string): (r: Option<seq<Row>>)
    ensures r.Some? ==> |r.value| == |rows|
    decreases |rows|
  {
    if |rows| == 0 then Some([])
    else
      var init := MarkDone(rows[..|rows| - 1], name);
      var last := rows[|rows| - 1];
      if init.None? || "Name" !in last then None else Some(init.value + [MarkRow(last, name)])
  }

  /** The update fails exactly when some row has no Name column. */
  lemma {:induction false} MarkDoneNeedsNames(rows: seq<Row>, name: string)
    ensures MarkDone(rows, name).None? <==> exists i :: 0 <= i < |rows| && "Name" !in rows[i]
    decreases |rows|
  {
    if |rows| > 0 {
      var init := rows[..|rows| - 1];
      MarkDoneNeedsNames(init, name);
      assert forall i :: 0 <= i < |init| ==> init[i] == rows[i];
    }
  }

  /**
   * Exactly the matching rows are marked: they get "Done" set to "TRUE" with
   * every other field untouched, and every other row is unchanged.
   */
  lemma {:induction false} MarkDoneRows(rows: seq<Row>, name: string)
    requires MarkDone(rows, name).Some?
    ensures var out := MarkDone(rows, name).value;
            forall i :: 0 <= i < |rows| ==>
              && "Name" in rows[i]
              && (Matches(rows[i], name) ==>
                    && out[i].Keys == rows[i].Keys + {"Done"}
                    && out[i]["Done"] == "TRUE"
                    && (forall k :: k in rows[i] && k != "Done" ==> out[i][k] == rows[i][k]))
              && (!Matches(rows[i], name) ==> out[i] == rows[i])
    decreases |rows|
  {
    if |rows| > 0 {
      MarkDoneRows(rows[..|rows| - 1], name);
    }
  }

  /** A marked row is done, and keeps its name. */
  lemma MarkedRowIsDone(row: Row, name: string)
    requires "Name" in row
    ensures "Name" in MarkRow(row, name) && MarkRow(row, name)["Name"] == row["Name"]
    ensures Matches(row, name) ==> IsDone(MarkRow(row, name))
    ensures !Matches(row, name) ==> IsDone(MarkRow(row, name)) == IsDone(row)
  {
    assert IsStripped("TRUE");
    StripOfStripped("TRUE");
    assert Upper("TRUE") == "TRUE";
  }

  /** Marking the same name twice is the same as marking it once. */
  lemma {:induction false} MarkDoneIdempotent(rows: seq<Row>, name: string)
    requires MarkDone(rows, name).Some?
    ensures MarkDone(MarkDone(rows, name).value, name) == MarkDone(rows, name)
    decreases |rows|
  {
    if |rows| > 0 {
      var init := rows[..|rows| - 1];
      var out := MarkDone(rows, name).value;
      MarkDoneIdempotent(init, name);
      assert out[..|out| - 1] == MarkDone(init, name).value;
      var last := rows[|rows| - 1];
      MarkedRowIsDone(last, name);
      var m := MarkRow(last, name);
      if Matches(last, name) {
        assert m["Done" := "TRUE"] == m;
      }
    }
  }

  /** The rows still to do, less those of the given name. */
  function Except(rows: seq<Row>, name: string): seq<Row>
    requires forall i :: 0 <= i < |rows| ==> "Name" in rows[i]
    decreases |rows|
  {
    if |rows| == 0 then []
    else
      var last := rows[|rows| - 1];
      Except(rows[..|rows| - 1], name) + (if Matches(last, name) then [] else [last])
  }

  /** After marking a name, the rows still to do are the earlier ones less that recipient's. */
  lemma {:induction false} MarkDoneLeavesTodo(rows: seq<Row>, name: string)
    requires MarkDone(rows, name).Some?
    ensures TodoNamed(rows)
    ensures Todo(MarkDone(rows, name).value) == Except(Todo(rows), name)
    decreases |rows|
  {
    if |rows| > 0 {
      var init := rows[..|rows| - 1];
      var last := rows[|rows| - 1];
      var out := MarkDone(rows, name).value;
      MarkDoneLeavesTodo(init, name);
      assert out[..|out| - 1] == MarkDone(init, name).value;
      MarkedRowIsDone(last, name);
      TodoMembers(rows);
      ExceptAppend(Todo(init), if IsDone(last) then [] else [last], name);
    }
  }

  /** Every row still to do has a Name column when every row has one. */
  ghost predicate TodoNamed(rows: seq<Row>)
  {
    forall i :: 0 <= i < |Todo(rows)| ==> "Name" in Todo(rows)[i]
  }

  lemma {:induction false} ExceptAppend(a: seq<Row>, b: seq<Row>, name: string)
    requires forall i :: 0 <= i < |a| ==> "Name" in a[i]
    requires forall i :: 0 <= i < |b| ==> "Name" in b[i]
    ensures forall i :: 0 <= i < |a + b| ==> "Name" in (a + b)[i]
    ensures Except(a + b, name) == Except(a, name) + Except(b, name)
    decreases |b|
  {
    assert forall i :: 0 <= i < |a + b| ==> "Name" in (a + b)[i] by {
      forall i | 0 <= i < |a + b| ensures "Name" in (a + b)[i] {
        if i < |a| { assert (a + b)[i] == a[i]; } else { assert (a + b)[i] == b[i - |a|]; }
      }
    }
    if |b| == 0 {
      assert a + b == a;
    } else {
      var b' := b[..|b| - 1];
      assert (a + b)[..|a + b| - 1] == a + b';
      ExceptAppend(a, b', name);
    }
  }

  /**
   * The envelope loop marks each envelope under its stripped name once it is
   * drawn: that row is done afterwards.
   */
  lemma PlottedEnvelopeIsDone(rows: seq<Row>, j: nat)
    requires j < |rows|
    requires MarkDone(rows, Field(rows[j], "Name")).Some?
    ensures IsDone(MarkDone(rows, Field(rows[j], "Name")).value[j])
  {
    var name := Field(rows[j], "Name");
    MarkDoneRows(rows, name);
    StripOfStripped(name);
    MarkedRowIsDone(rows[j], name);
  }
}
