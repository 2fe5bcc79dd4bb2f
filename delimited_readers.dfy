/**
 * The single pass shared by `ReadDDT_from_Innerhofer`, `ReadDDT_from_Wuerth`
 * and `ReadDDT_from_SVAI`: split the text into lines, skip line 0, skip
 * blank lines and rows with too few `;`-separated fields, fill the header
 * from the first accepted row only, and append one item per accepted row.
 * Any value that does not parse ends the whole read.
 */
module DelimitedReaders {
  import opened Wrappers
  import opened Strings
  import opened Documents
  import opened FormatDetection
  import opened VendorLayouts

  const LineSeparator: char := '\n'
  const FieldSeparator: char := ';'

  function Lines(text: string): seq<string>
  {
    Split(text, LineSeparator)
  }

  function Fields(line: string): seq<string>
  {
    Split(line, FieldSeparator)
  }

  /**
   * A delimited layout as the pass sees it: the fewest fields a data row must
   * have, the header update of the first accepted row and the item builder.
   */
  datatype Layout = Layout(
    minFields: nat,
    header: (Documento, seq<string>, Parsers) --> Option<Documento>,
    riga: (nat, seq<string>, Parsers) --> Option<RigaDet>)

  /** A header update sets the number and leaves the items and the supplier identity alone. */
  predicate HeaderUpdate(doc: Documento, h: Documento)
  {
    && h.DocNumero.Some?
    && h.RigheDelDoc == doc.RigheDelDoc
    && h.Fornitore_AgileID == doc.Fornitore_AgileID
    && h.FornitoreDescrizione == doc.FornitoreDescrizione
    && h.DocTipo == doc.DocTipo
  }

  /** Both builders accept every row with enough fields, and the header builder is a header update. */
  ghost predicate ValidLayout(L: Layout)
  {
    && (forall doc, fields, p :: |fields| >= L.minFields ==> L.header.requires(doc, fields, p))
    && (forall i, fields, p :: |fields| >= L.minFields ==> L.riga.requires(i, fields, p))
    && (forall doc, fields, p ::
          (|fields| >= L.minFields && L.header.requires(doc, fields, p) && L.header(doc, fields, p).Some?)
          ==> HeaderUpdate(doc, L.header(doc, fields, p).value))
  }

  /** The layout of a delimited vendor export. */
  function LayoutOf(f: Format): (L: Layout)
    requires IsDelimited(f)
    ensures ValidLayout(L) && L.minFields == MinFields(f)
    ensures forall doc, fields, p :: |fields| >= MinFields(f) ==> L.header(doc, fields, p) == ApplyHeader(f, doc, fields, p)
    ensures forall i, fields, p :: |fields| >= MinFields(f) ==> L.riga(i, fields, p) == MakeRiga(f, i, fields, p)
  {
    var L := Layout(MinFields(f),
                    (doc: Documento, fields: seq<string>, p: Parsers) requires |fields| >= MinFields(f) => ApplyHeader(f, doc, fields, p),
                    (i: nat, fields: seq<string>, p: Parsers) requires |fields| >= MinFields(f) => MakeRiga(f, i, fields, p));
    ApplyHeaderIsHeaderUpdate(f);
    L
  }

  /** Every vendor's header update is a `HeaderUpdate`. */
  lemma ApplyHeaderIsHeaderUpdate(f: Format)
    requires IsDelimited(f)
    ensures forall doc, fields, p :: |fields| >= MinFields(f) && ApplyHeader(f, doc, fields, p).Some?
              ==> HeaderUpdate(doc, ApplyHeader(f, doc, fields, p).value)
  {
    forall doc, fields, p | |fields| >= MinFields(f) && ApplyHeader(f, doc, fields, p).Some?
      ensures HeaderUpdate(doc, ApplyHeader(f, doc, fields, p).value)
    {
      var r := ApplyHeader(f, doc, fields, p);
      assert r.value.DocNumero == Some(Trim(fields[NumberField(f)]));
    }
  }

  /** A line the reader turns into an item: not blank, and with enough fields. */
  predicate Accepted(L: Layout, line: string)
  {
    !IsNullOrWhiteSpace(line) && |Fields(line)| >= L.minFields
  }

  /** The indexes, from `i` on and in increasing order, of the accepted lines. */
  function AcceptedFrom(L: Layout, lines: seq<string>, i: nat): (rows: seq<nat>)
    ensures forall k :: 0 <= k < |rows| ==> i <= rows[k] < |lines| && Accepted(L, lines[rows[k]])
    ensures forall a, b :: 0 <= a < b < |rows| ==> rows[a] < rows[b]
    decreases |lines| - i
  {
    if i >= |lines| then []
    else if Accepted(L, lines[i]) then [i] + AcceptedFrom(L, lines, i + 1)
    else AcceptedFrom(L, lines, i + 1)
  }

  /** No accepted line is missing from `AcceptedFrom`. */
  lemma {:induction false} AcceptedFromComplete(L: Layout, lines: seq<string>, i: nat, j: nat)
    requires i <= j < |lines| && Accepted(L, lines[j])
    ensures j in AcceptedFrom(L, lines, i)
    decreases j - i
  {
    if i < j {
      AcceptedFromComplete(L, lines, i + 1, j);
    }
  }

  /** The physical lines of `text` that produce items: line 0 is never one of them. */
  function AcceptedRows(f: Format, text: string): seq<nat>
    requires IsDelimited(f)
  {
    AcceptedFrom(LayoutOf(f), Lines(text), 1)
  }

  /** What one loop iteration does to the document with physical line `i`. */
  function ReadRow(L: Layout, doc: Documento, i: nat, line: string, p: Parsers): (r: Result<Documento, Error>)
    requires ValidLayout(L)
  {
    if IsNullOrWhiteSpace(line) then Ok(doc)
    else
      var fields := Fields(line);
      if |fields| < L.minFields then Ok(doc)
      else
        var withHeader := if doc.DocNumero.None? then L.header(doc, fields, p) else Some(doc);
        match withHeader
        case None => Err(ParseFailure(i))
        case Some(d) =>
          match L.riga(i, fields, p)
          case None => Err(ParseFailure(i))
          case Some(riga) => Ok(d.(RigheDelDoc := d.RigheDelDoc + [riga]))
  }

  /** The rest of the pass, from physical line `i` on, starting from `doc`. */
  function ReadFrom(L: Layout, lines: seq<string>, i: nat, doc: Documento, p: Parsers): (r: Result<Documento, Error>)
    requires ValidLayout(L)
    decreases |lines| - i
  {
    if i >= |lines| then Ok(doc)
    else
      var d :- ReadRow(L, doc, i, lines[i], p);
      ReadFrom(L, lines, i + 1, d, p)
  }

  /** The document a delimited reader returns for `text`, or why it throws. */
  function ReadDelimitedSpec(f: Format, text: string, p: Parsers): Result<Documento, Error>
    requires IsDelimited(f)
  {
    ReadFrom(LayoutOf(f), Lines(text), 1, Initial(f), p)
  }

  /** The reader loop, as the C# readers run it. */
  method ReadDelimited(f: Format, text: string, p: Parsers) returns (r: Result<Documento, Error>)
    requires IsDelimited(f)
    ensures r == ReadDelimitedSpec(f, text, p)
  {
    var layout := LayoutOf(f);
    var documento := Initial(f);
    var lines := Lines(text);
    for i := 1 to |lines|
      invariant ReadFrom(layout, lines, i, documento, p) == ReadDelimitedSpec(f, text, p)
    {
      if IsNullOrWhiteSpace(lines[i]) {
        continue;
      }
      var fields := Fields(lines[i]);
      if |fields| < layout.minFields {
        continue;
      }
      if documento.DocNumero == None {
        var withHeader := layout.header(documento, fields, p);
        if withHeader == None {
          return Err(ParseFailure(i));
        }
        documento := withHeader.value;
      }
      var riga := layout.riga(i, fields, p);
      if riga == None {
        return Err(ParseFailure(i));
      }
      documento := documento.(RigheDelDoc := documento.RigheDelDoc + [riga.value]);
    }
    return Ok(documento);
  }
}
