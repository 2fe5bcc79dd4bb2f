/**
 * The reader properties stated for the three vendor readers on a whole text:
 * items per accepted row in line order, the vendor's row numbering, the
 * header from the first accepted row, the fixed supplier fields, and the
 * rows that are skipped.
 */
module VendorProperties {
  import opened Wrappers
  import opened Strings
  import opened Documents
  import opened FormatDetection
  import opened VendorLayouts
  import opened DelimitedReaders
  import opened ReaderProperties

  /** A line is accepted exactly when it is not blank and has at least `MinFields - 1` semicolons. */
  lemma AcceptedIffEnoughSeparators(f: Format, line: string)
    requires IsDelimited(f)
    ensures Accepted(LayoutOf(f), line) <==> Trim(line) != "" && multiset(line)[FieldSeparator] + 1 >= MinFields(f)
  {
    BlankIffTrimsToEmpty(line);
    SplitCount(line, FieldSeparator);
  }

  /** The accepted rows lie after the first line and inside the text. */
  lemma AcceptedRowsInRange(f: Format, text: string)
    requires IsDelimited(f)
    ensures forall k :: 0 <= k < |AcceptedRows(f, text)| ==> 1 <= AcceptedRows(f, text)[k] < |Lines(text)|
  {
  }

  /** A successful read has one item per accepted row, each the item of that row's line. */
  lemma ItemsOfAcceptedRows(f: Format, text: string, p: Parsers, d: Documento)
    requires IsDelimited(f) && ReadDelimitedSpec(f, text, p) == Ok(d)
    ensures |d.RigheDelDoc| == |AcceptedRows(f, text)|
    ensures forall k :: 0 <= k < |AcceptedRows(f, text)| ==>
              ItemOfLine(LayoutOf(f), Lines(text), AcceptedRows(f, text)[k], p) == Some(d.RigheDelDoc[k])
  {
    ItemsFromNoItems(LayoutOf(f), Lines(text), 1, Initial(f), p, d);
  }

  /** For a vendor layout, the item of an accepted line is the vendor's item builder on its fields. */
  lemma VendorItem(f: Format, lines: seq<string>, j: nat, p: Parsers)
    requires IsDelimited(f) && j < |lines| && Accepted(LayoutOf(f), lines[j])
    ensures ItemOfLine(LayoutOf(f), lines, j, p) == MakeRiga(f, j, Fields(lines[j]), p)
  {
  }

  /**
   * A successful read has one item per accepted row, in line order, each the
   * row's own item; line 0 is never among those rows.
   */
  lemma ItemsInLineOrder(f: Format, text: string, p: Parsers, d: Documento)
    requires IsDelimited(f) && ReadDelimitedSpec(f, text, p) == Ok(d)
    ensures |d.RigheDelDoc| == |AcceptedRows(f, text)|
    ensures forall k :: 0 <= k < |AcceptedRows(f, text)| ==>
              1 <= AcceptedRows(f, text)[k] < |Lines(text)|
              && MakeRiga(f, AcceptedRows(f, text)[k], Fields(Lines(text)[AcceptedRows(f, text)[k]]), p) == Some(d.RigheDelDoc[k])
  {
    AcceptedRowsInRange(f, text);
    ItemsOfAcceptedRows(f, text, p, d);
    var rows := AcceptedRows(f, text);
    forall k | 0 <= k < |rows|
      ensures MakeRiga(f, rows[k], Fields(Lines(text)[rows[k]]), p) == Some(d.RigheDelDoc[k])
    {
      VendorItem(f, Lines(text), rows[k], p);
    }
  }

  /**
   * A read succeeds exactly when the first accepted row's date parses and every
   * accepted row's item parses; a failure names an accepted line.
   */
  lemma SucceedsIffAcceptedRowsParse(f: Format, text: string, p: Parsers)
    requires IsDelimited(f)
    ensures ReadDelimitedSpec(f, text, p).Ok? <==>
              && (AcceptedRows(f, text) != [] ==>
                    p.DateTimeParse(Trim(Fields(Lines(text)[AcceptedRows(f, text)[0]])[DateField(f)])).Some?)
              && forall j :: 1 <= j < |Lines(text)| && Accepted(LayoutOf(f), Lines(text)[j]) ==>
                   MakeRiga(f, j, Fields(Lines(text)[j]), p).Some?
    ensures ReadDelimitedSpec(f, text, p).Err? ==>
              ReadDelimitedSpec(f, text, p).error.ParseFailure?
              && ReadDelimitedSpec(f, text, p).error.line in AcceptedRows(f, text)
  {
    SucceedsIffRowsParse(LayoutOf(f), Lines(text), 1, Initial(f), p);
  }

  /**
   * The header of a successful read is the reader's initial document when no
   * row is accepted, and otherwise what the first accepted row writes into it.
   */
  lemma HeaderOfFirstAcceptedRow(f: Format, text: string, p: Parsers, d: Documento)
    requires IsDelimited(f) && ReadDelimitedSpec(f, text, p) == Ok(d)
    ensures AcceptedRows(f, text) == [] ==> Header(d) == Initial(f)
    ensures AcceptedRows(f, text) != [] ==>
              ApplyHeader(f, Initial(f), Fields(Lines(text)[AcceptedRows(f, text)[0]]), p) == Some(Header(d))
  {
    HeaderFromFirstRow(LayoutOf(f), Lines(text), 1, Initial(f), p, d);
  }

  /** Whatever the text, a successful read carries the reader's supplier identity and `DocTipo = "DDT"`. */
  lemma FixedSupplierFields(f: Format, text: string, p: Parsers, d: Documento)
    requires IsDelimited(f) && ReadDelimitedSpec(f, text, p) == Ok(d)
    ensures d.DocTipo == Some("DDT")
    ensures d.Fornitore_AgileID == Initial(f).Fornitore_AgileID
    ensures d.FornitoreDescrizione == Initial(f).FornitoreDescrizione
  {
    HeaderOfFirstAcceptedRow(f, text, p, d);
  }

  /** The number and date of a successful read come from the first accepted row, and only from it. */
  lemma NumberAndDateOfFirstAcceptedRow(f: Format, text: string, p: Parsers, d: Documento)
    requires IsDelimited(f) && ReadDelimitedSpec(f, text, p) == Ok(d)
    ensures AcceptedRows(f, text) == [] ==> d.DocNumero.None? && d.DocData == MinValue
    ensures AcceptedRows(f, text) != [] ==>
              var first := Fields(Lines(text)[AcceptedRows(f, text)[0]]);
              && d.DocNumero == Some(Trim(first[NumberField(f)]))
              && p.DateTimeParse(Trim(first[DateField(f)])).Some?
              && d.DocData == p.DateTimeParse(Trim(first[DateField(f)])).value
  {
    HeaderOfFirstAcceptedRow(f, text, p, d);
  }

  /**
   * Wuerth and SVAI take the customer and the destination from the first
   * accepted row; the place line keeps its three fields untrimmed. SVAI never
   * writes the customer code, and with Innerhofer, or with no accepted row,
   * all four fields stay null.
   */
  lemma CustomerAndDestination(f: Format, text: string, p: Parsers, d: Documento)
    requires IsDelimited(f) && ReadDelimitedSpec(f, text, p) == Ok(d)
    ensures f == Wuerth && AcceptedRows(f, text) != [] ==>
              var first := Fields(Lines(text)[AcceptedRows(f, text)[0]]);
              && d.Cliente_CodiceAssegnatoDalFornitore == Some(Trim(first[0]))
              && d.Cliente_AgileDesc == Some(Trim(first[1]))
              && d.DestinazioneMerce1 == Some(Trim(first[2]))
              && d.DestinazioneMerce2 == Some(PlaceLine(first[3], first[4], first[5]))
    ensures f == Svai && AcceptedRows(f, text) != [] ==>
              var first := Fields(Lines(text)[AcceptedRows(f, text)[0]]);
              && d.Cliente_CodiceAssegnatoDalFornitore.None?
              && d.Cliente_AgileDesc == Some(SvaiCustomerName(Trim(first[2]), Trim(first[3])))
              && d.DestinazioneMerce1 == Some(Trim(first[4]))
              && d.DestinazioneMerce2 == Some(PlaceLine(first[5], first[6], first[7]))
    ensures f == Innerhofer || AcceptedRows(f, text) == [] ==> d.Cliente_CodiceAssegnatoDalFornitore.None? && d.Cliente_AgileDesc.None? && d.DestinazioneMerce1.None? && d.DestinazioneMerce2.None?
  {
    HeaderOfFirstAcceptedRow(f, text, p, d);
  }

  /**
   * The row number of each item: Innerhofer uses the physical line index
   * (so the numbers rise strictly and start at 1 or later), Wuerth parses
   * field 9, SVAI leaves the default 0.
   */
  lemma RowNumbers(f: Format, text: string, p: Parsers, d: Documento)
    requires IsDelimited(f) && ReadDelimitedSpec(f, text, p) == Ok(d)
    ensures |d.RigheDelDoc| == |AcceptedRows(f, text)|
    ensures f == Innerhofer ==> forall k :: 0 <= k < |d.RigheDelDoc| ==> d.RigheDelDoc[k].RigaNumero == AcceptedRows(f, text)[k] >= 1
    ensures f == Innerhofer ==> forall a, b :: 0 <= a < b < |d.RigheDelDoc| ==> d.RigheDelDoc[a].RigaNumero < d.RigheDelDoc[b].RigaNumero
    ensures f == Wuerth ==> forall k :: 0 <= k < |d.RigheDelDoc| ==>
              var j := AcceptedRows(f, text)[k];
              j < |Lines(text)| && |Fields(Lines(text)[j])| >= 40
              && p.IntParse(Trim(Fields(Lines(text)[j])[9])).Some?
              && d.RigheDelDoc[k].RigaNumero == p.IntParse(Trim(Fields(Lines(text)[j])[9])).value
    ensures f == Svai ==> forall k :: 0 <= k < |d.RigheDelDoc| ==> d.RigheDelDoc[k].RigaNumero == 0
  {
    ItemsInLineOrder(f, text, p, d);
  }

  /** Line 0 can be anything: two texts that agree from line 1 on read the same. */
  lemma FirstLineIgnored(f: Format, t1: string, t2: string, p: Parsers)
    requires IsDelimited(f)
    requires Lines(t1)[1..] == Lines(t2)[1..]
    ensures ReadDelimitedSpec(f, t1, p) == ReadDelimitedSpec(f, t2, p)
  {
    var l1, l2 := Lines(t1), Lines(t2);
    forall j | 1 <= j < |l1| ensures l1[j] == l2[j] {
      assert l1[1..][j - 1] == l1[j] && l2[1..][j - 1] == l2[j];
    }
    OnlyAcceptedLinesMatter(LayoutOf(f), l1, l2, 1, Initial(f), p);
  }

  /**
   * Skipped lines have no effect: replacing any blank or short line by another
   * blank or short line leaves the result unchanged.
   */
  lemma SkippedLinesIgnored(f: Format, t1: string, t2: string, p: Parsers)
    requires IsDelimited(f)
    requires |Lines(t1)| == |Lines(t2)|
    requires forall j :: 1 <= j < |Lines(t1)| ==>
               Lines(t1)[j] == Lines(t2)[j]
               || (!Accepted(LayoutOf(f), Lines(t1)[j]) && !Accepted(LayoutOf(f), Lines(t2)[j]))
    ensures ReadDelimitedSpec(f, t1, p) == ReadDelimitedSpec(f, t2, p)
  {
    OnlyAcceptedLinesMatter(LayoutOf(f), Lines(t1), Lines(t2), 1, Initial(f), p);
  }
}
