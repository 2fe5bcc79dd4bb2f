/**
 * What the delimited pass promises, for every valid layout, about the
 * document it returns: one item per accepted row in line order, a header
 * taken from the first accepted row only, failure exactly when an accepted
 * row does not parse, and no influence of line 0, blank lines or short rows.
 */
module ReaderProperties {
  import opened Wrappers
  import opened Strings
  import opened Documents
  import opened DelimitedReaders

  /** The item that accepted line `j` produces, when its values parse. */
  function ItemOfLine(L: Layout, lines: seq<string>, j: nat, p: Parsers): Option<RigaDet>
    requires ValidLayout(L) && j < |lines| && Accepted(L, lines[j])
  {
    L.riga(j, Fields(lines[j]), p)
  }

  /** Accepted line `j` can fill the header of `doc`. */
  predicate HeaderParses(L: Layout, doc: Documento, lines: seq<string>, j: nat, p: Parsers)
    requires ValidLayout(L) && j < |lines| && Accepted(L, lines[j])
  {
    L.header(doc, Fields(lines[j]), p).Some?
  }

  /** Every accepted line from `i` on yields an item. */
  predicate ItemsParse(L: Layout, lines: seq<string>, i: nat, p: Parsers)
    requires ValidLayout(L)
  {
    forall j :: i <= j < |lines| && Accepted(L, lines[j]) ==> ItemOfLine(L, lines, j, p).Some?
  }

  /**
   * Every accepted row from `i` on parses: its item, and, for the first one
   * when the header of `doc` is still to be filled, its header.
   */
  predicate RowsParse(L: Layout, lines: seq<string>, i: nat, doc: Documento, p: Parsers)
    requires ValidLayout(L)
  {
    var rows := AcceptedFrom(L, lines, i);
    && (doc.DocNumero.None? && rows != [] ==> HeaderParses(L, doc, lines, rows[0], p))
    && ItemsParse(L, lines, i, p)
  }

  /** A row that is not accepted leaves the document as it is. */
  lemma SkippedRowChangesNothing(L: Layout, doc: Documento, i: nat, line: string, p: Parsers)
    requires ValidLayout(L) && !Accepted(L, line)
    ensures ReadRow(L, doc, i, line, p) == Ok(doc)
  {
  }

  /** One accepted row: it fails on its own line, or appends its item after the header update. */
  lemma AcceptedRowStep(L: Layout, doc: Documento, i: nat, line: string, p: Parsers)
    requires ValidLayout(L) && Accepted(L, line)
    ensures ReadRow(L, doc, i, line, p).Ok? <==>
              L.riga(i, Fields(line), p).Some? && (doc.DocNumero.None? ==> L.header(doc, Fields(line), p).Some?)
    ensures ReadRow(L, doc, i, line, p).Err? ==> ReadRow(L, doc, i, line, p).error == ParseFailure(i)
    ensures ReadRow(L, doc, i, line, p).Ok? ==>
              var next := ReadRow(L, doc, i, line, p).value;
              && next.RigheDelDoc == doc.RigheDelDoc + [L.riga(i, Fields(line), p).value]
              && next.DocNumero.Some?
              && Header(next) == Header(if doc.DocNumero.None? then L.header(doc, Fields(line), p).value else doc)
  {
  }

  /** Skipping line `i` changes neither the read nor which rows have to parse. */
  lemma SkippedLineStep(L: Layout, lines: seq<string>, i: nat, doc: Documento, p: Parsers)
    requires ValidLayout(L) && i < |lines| && !Accepted(L, lines[i])
    ensures ReadFrom(L, lines, i, doc, p) == ReadFrom(L, lines, i + 1, doc, p)
    ensures AcceptedFrom(L, lines, i) == AcceptedFrom(L, lines, i + 1)
    ensures RowsParse(L, lines, i, doc, p) <==> RowsParse(L, lines, i + 1, doc, p)
  {
    SkippedRowChangesNothing(L, doc, i, lines[i], p);
  }

  /** An accepted line `i` that parses hands the rest of the read a document whose number is set. */
  lemma AcceptedLineStep(L: Layout, lines: seq<string>, i: nat, doc: Documento, p: Parsers)
    requires ValidLayout(L) && i < |lines| && Accepted(L, lines[i])
    requires ReadRow(L, doc, i, lines[i], p).Ok?
    ensures ReadFrom(L, lines, i, doc, p) == ReadFrom(L, lines, i + 1, ReadRow(L, doc, i, lines[i], p).value, p)
    ensures ReadRow(L, doc, i, lines[i], p).value.DocNumero.Some?
    ensures AcceptedFrom(L, lines, i) == [i] + AcceptedFrom(L, lines, i + 1)
    ensures RowsParse(L, lines, i, doc, p) <==> RowsParse(L, lines, i + 1, ReadRow(L, doc, i, lines[i], p).value, p)
  {
    AcceptedRowStep(L, doc, i, lines[i], p);
    RowsParseUncons(L, lines, i, doc, p);
  }

  /** An accepted line `i` that does not parse ends the read with an error on line `i`. */
  lemma FailingLineStep(L: Layout, lines: seq<string>, i: nat, doc: Documento, p: Parsers)
    requires ValidLayout(L) && i < |lines| && Accepted(L, lines[i])
    requires ReadRow(L, doc, i, lines[i], p).Err?
    ensures ReadFrom(L, lines, i, doc, p) == Err(ParseFailure(i))
    ensures i in AcceptedFrom(L, lines, i)
    ensures !RowsParse(L, lines, i, doc, p)
  {
    AcceptedRowStep(L, doc, i, lines[i], p);
    RowsParseUncons(L, lines, i, doc, p);
  }

  /** When line `i` is accepted, the rows from `i` parse exactly when line `i` and the rows after it do. */
  lemma RowsParseUncons(L: Layout, lines: seq<string>, i: nat, doc: Documento, p: Parsers)
    requires ValidLayout(L) && i < |lines| && Accepted(L, lines[i])
    ensures RowsParse(L, lines, i, doc, p) <==>
              && (doc.DocNumero.None? ==> HeaderParses(L, doc, lines, i, p))
              && ItemOfLine(L, lines, i, p).Some?
              && ItemsParse(L, lines, i + 1, p)
  {
    assert AcceptedFrom(L, lines, i)[0] == i;
  }

  /**
   * The items appended from line `i` on are exactly the items of the
   * accepted lines, one each, in line order, after the items already there.
   */
  lemma {:induction false} ItemsFollowAcceptedRows(L: Layout, lines: seq<string>, i: nat, doc: Documento, p: Parsers, d: Documento)
    requires ValidLayout(L) && ReadFrom(L, lines, i, doc, p) == Ok(d)
    ensures |d.RigheDelDoc| == |doc.RigheDelDoc| + |AcceptedFrom(L, lines, i)|
    ensures d.RigheDelDoc[..|doc.RigheDelDoc|] == doc.RigheDelDoc
    ensures forall k :: 0 <= k < |AcceptedFrom(L, lines, i)| ==>
              ItemOfLine(L, lines, AcceptedFrom(L, lines, i)[k], p) == Some(d.RigheDelDoc[|doc.RigheDelDoc| + k])
    decreases |lines| - i
  {
    if i < |lines| {
      if Accepted(L, lines[i]) {
        AcceptedLineStep(L, lines, i, doc, p);
        var next := ReadRow(L, doc, i, lines[i], p).value;
        ItemsFollowAcceptedRows(L, lines, i + 1, next, p, d);
        AcceptedRowStep(L, doc, i, lines[i], p);
        AppendedItem(L, lines, i, doc, next, p, d, AcceptedFrom(L, lines, i + 1));
      } else {
        SkippedLineStep(L, lines, i, doc, p);
        ItemsFollowAcceptedRows(L, lines, i + 1, doc, p, d);
      }
    }
  }

  /** Started from a document with no items, the items are exactly those of the accepted lines, in line order. */
  lemma ItemsFromNoItems(L: Layout, lines: seq<string>, i: nat, doc: Documento, p: Parsers, d: Documento)
    requires ValidLayout(L) && ReadFrom(L, lines, i, doc, p) == Ok(d) && doc.RigheDelDoc == []
    ensures |d.RigheDelDoc| == |AcceptedFrom(L, lines, i)|
    ensures forall k :: 0 <= k < |AcceptedFrom(L, lines, i)| ==>
              ItemOfLine(L, lines, AcceptedFrom(L, lines, i)[k], p) == Some(d.RigheDelDoc[k])
  {
    ItemsFollowAcceptedRows(L, lines, i, doc, p, d);
    var rows := AcceptedFrom(L, lines, i);
    forall k | 0 <= k < |rows| ensures ItemOfLine(L, lines, rows[k], p) == Some(d.RigheDelDoc[k]) {
      assert ItemOfLine(L, lines, rows[k], p) == Some(d.RigheDelDoc[|doc.RigheDelDoc| + k]);
    }
  }

  /** The induction step of `ItemsFollowAcceptedRows` for an accepted line `i`. */
  lemma AppendedItem(L: Layout, lines: seq<string>, i: nat, doc: Documento, next: Documento, p: Parsers, d: Documento, rest: seq<nat>)
    requires ValidLayout(L) && i < |lines| && Accepted(L, lines[i])
    requires ItemOfLine(L, lines, i, p).Some? && next.RigheDelDoc == doc.RigheDelDoc + [ItemOfLine(L, lines, i, p).value]
    requires rest == AcceptedFrom(L, lines, i + 1)
    requires AcceptedFrom(L, lines, i) == [i] + rest
    requires |d.RigheDelDoc| == |next.RigheDelDoc| + |rest|
    requires d.RigheDelDoc[..|next.RigheDelDoc|] == next.RigheDelDoc
    requires forall k :: 0 <= k < |rest| ==> ItemOfLine(L, lines, rest[k], p) == Some(d.RigheDelDoc[|next.RigheDelDoc| + k])
    ensures |d.RigheDelDoc| == |doc.RigheDelDoc| + |AcceptedFrom(L, lines, i)|
    ensures d.RigheDelDoc[..|doc.RigheDelDoc|] == doc.RigheDelDoc
    ensures forall k :: 0 <= k < |AcceptedFrom(L, lines, i)| ==>
              ItemOfLine(L, lines, AcceptedFrom(L, lines, i)[k], p) == Some(d.RigheDelDoc[|doc.RigheDelDoc| + k])
  {
    var rows := AcceptedFrom(L, lines, i);
    var n := |doc.RigheDelDoc|;
    assert d.RigheDelDoc[..n] == d.RigheDelDoc[..n + 1][..n];
    forall k | 0 <= k < |rows|
      ensures ItemOfLine(L, lines, rows[k], p) == Some(d.RigheDelDoc[n + k])
    {
      if k == 0 {
        assert d.RigheDelDoc[n] == d.RigheDelDoc[..n + 1][n];
      } else {
        assert rows[k] == rest[k - 1];
      }
    }
  }

  /**
   * The header is filled at most once: from line `i` on, a document whose
   * number is already set, or that meets no accepted row, keeps its header;
   * otherwise the header is the one the first accepted row writes.
   */
  lemma {:induction false} HeaderFromFirstRow(L: Layout, lines: seq<string>, i: nat, doc: Documento, p: Parsers, d: Documento)
    requires ValidLayout(L) && ReadFrom(L, lines, i, doc, p) == Ok(d)
    ensures doc.DocNumero.Some? || AcceptedFrom(L, lines, i) == [] ==> Header(d) == Header(doc)
    ensures doc.DocNumero.None? && AcceptedFrom(L, lines, i) != [] ==>
              var first := AcceptedFrom(L, lines, i)[0];
              && HeaderParses(L, doc, lines, first, p)
              && Header(d) == Header(L.header(doc, Fields(lines[first]), p).value)
    decreases |lines| - i
  {
    if i < |lines| {
      if Accepted(L, lines[i]) {
        AcceptedLineStep(L, lines, i, doc, p);
        AcceptedRowStep(L, doc, i, lines[i], p);
        HeaderFromFirstRow(L, lines, i + 1, ReadRow(L, doc, i, lines[i], p).value, p, d);
      } else {
        SkippedLineStep(L, lines, i, doc, p);
        HeaderFromFirstRow(L, lines, i + 1, doc, p, d);
      }
    }
  }

  /**
   * A read succeeds exactly when every accepted row parses; when it fails, it
   * fails on an accepted row.
   */
  lemma {:induction false} SucceedsIffRowsParse(L: Layout, lines: seq<string>, i: nat, doc: Documento, p: Parsers)
    requires ValidLayout(L)
    ensures ReadFrom(L, lines, i, doc, p).Ok? <==> RowsParse(L, lines, i, doc, p)
    ensures ReadFrom(L, lines, i, doc, p).Err? ==>
              ReadFrom(L, lines, i, doc, p).error.ParseFailure?
              && ReadFrom(L, lines, i, doc, p).error.line in AcceptedFrom(L, lines, i)
    decreases |lines| - i
  {
    if i < |lines| {
      var step := ReadRow(L, doc, i, lines[i], p);
      if !Accepted(L, lines[i]) {
        SucceedsIffRowsParse(L, lines, i + 1, doc, p);
        SkippedLineStep(L, lines, i, doc, p);
      } else if step.Ok? {
        SucceedsIffRowsParse(L, lines, i + 1, step.value, p);
        AcceptedLineStep(L, lines, i, doc, p);
      } else {
        FailingLineStep(L, lines, i, doc, p);
      }
    }
  }

  /**
   * The read depends on nothing but the accepted lines: lines before `i`,
   * blank lines and short rows can be anything, as long as the same lines
   * are accepted and they agree.
   */
  lemma {:induction false} OnlyAcceptedLinesMatter(L: Layout, l1: seq<string>, l2: seq<string>, i: nat, doc: Documento, p: Parsers)
    requires ValidLayout(L) && |l1| == |l2|
    requires forall j :: i <= j < |l1| ==> (Accepted(L, l1[j]) <==> Accepted(L, l2[j]))
    requires forall j :: i <= j < |l1| && Accepted(L, l1[j]) ==> l1[j] == l2[j]
    ensures ReadFrom(L, l1, i, doc, p) == ReadFrom(L, l2, i, doc, p)
    decreases |l1| - i
  {
    if i < |l1| {
      var s1 := ReadRow(L, doc, i, l1[i], p);
      assert s1 == ReadRow(L, doc, i, l2[i], p);
      if s1.Ok? {
        OnlyAcceptedLinesMatter(L, l1, l2, i + 1, s1.value, p);
      }
    }
  }
}
