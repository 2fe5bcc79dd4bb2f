/**
 * The column layouts of the three delimited vendor exports: how many
 * `;`-separated fields a data row needs, the fixed supplier identity each
 * reader stamps on its document, which columns fill the header on the first
 * accepted row, and which columns fill each line item.
 */
module VendorLayouts {
  import opened Wrappers
  import opened Strings
  import opened Documents
  import opened FormatDetection

  predicate IsDelimited(f: Format)
  {
    f != Spazio
  }

  /** Rows with fewer fields than this are skipped by the reader. */
  function MinFields(f: Format): nat
    requires IsDelimited(f)
  {
    match f
    case Innerhofer => 9
    case Wuerth => 40
    case Svai => 21
  }

  /** The column holding the delivery-note date, parsed when the header is filled. */
  function DateField(f: Format): nat
    requires IsDelimited(f)
  {
    match f
    case Innerhofer => 8
    case Wuerth => 7
    case Svai => 1
  }

  /** The column holding the delivery-note number. */
  function NumberField(f: Format): nat
    requires IsDelimited(f)
  {
    match f
    case Innerhofer => 7
    case Wuerth => 8
    case Svai => 0
  }

  /** The document a reader starts from: the supplier identity and `DocTipo = "DDT"`, nothing else. */
  function Initial(f: Format): (d: Documento)
    ensures d.DocTipo == Some("DDT") && d.DocNumero.None? && d.RigheDelDoc == []
  {
    match f
    case Innerhofer =>
      EmptyDocumento.(Fornitore_AgileID := Some("INNERHOFER"), FornitoreDescrizione := Some("Innerhofer"), DocTipo := Some("DDT"))
    case Wuerth =>
      EmptyDocumento.(Fornitore_AgileID := Some("WUERTH"), FornitoreDescrizione := Some("Wuerth"), DocTipo := Some("DDT"))
    case Svai =>
      EmptyDocumento.(Fornitore_AgileID := Some("SVAI"), FornitoreDescrizione := Some("SVAI Srl"), DocTipo := Some("DDT"))
    case Spazio =>
      EmptyDocumento.(Fornitore_AgileID := Some("SPAZIO"), DocTipo := Some("DDT"))
  }

  /** `$"{a} {b} ({c})"`: postal code, town and province on one destination line. */
  function PlaceLine(a: string, b: string, c: string): string
  {
    a + " " + b + " (" + c + ")"
  }

  /**
   * The header update of the first accepted row: the number and date of the
   * delivery note and, for Wuerth and SVAI, the customer and the destination.
   * It fails exactly when the date column does not parse; it sets a number,
   * and it touches neither the line items nor the supplier identity.
   */
  function ApplyHeader(f: Format, doc: Documento, fields: seq<string>, p: Parsers): (r: Option<Documento>)
    requires IsDelimited(f) && |fields| >= MinFields(f)
    ensures r.Some? <==> p.DateTimeParse(Trim(fields[DateField(f)])).Some?
    ensures r.Some? ==> r.value.DocNumero == Some(Trim(fields[NumberField(f)]))
    ensures r.Some? ==> r.value.DocData == p.DateTimeParse(Trim(fields[DateField(f)])).value
    ensures r.Some? ==> r.value.RigheDelDoc == doc.RigheDelDoc
                        && r.value.Fornitore_AgileID == doc.Fornitore_AgileID
                        && r.value.FornitoreDescrizione == doc.FornitoreDescrizione
                        && r.value.DocTipo == doc.DocTipo
  {
    match f
    case Innerhofer => InnerhoferHeader(doc, fields, p)
    case Wuerth => WuerthHeader(doc, fields, p)
    case Svai => SvaiHeader(doc, fields, p)
  }

  /** Innerhofer: number from field 7, date from field 8. */
  function InnerhoferHeader(doc: Documento, fields: seq<string>, p: Parsers): (r: Option<Documento>)
    requires |fields| >= 9
    ensures r.Some? ==> r.value.Cliente_CodiceAssegnatoDalFornitore == doc.Cliente_CodiceAssegnatoDalFornitore
                        && r.value.Cliente_AgileDesc == doc.Cliente_AgileDesc
                        && r.value.DestinazioneMerce1 == doc.DestinazioneMerce1
                        && r.value.DestinazioneMerce2 == doc.DestinazioneMerce2
  {
    var data :- p.DateTimeParse(Trim(fields[8]));
    Some(doc.(DocNumero := Some(Trim(fields[7])), DocData := data))
  }

  /**
   * Wuerth: customer code and name from fields 0 and 1, street from field 2,
   * the untrimmed fields 3, 4 and 5 as the place line, date from field 7,
   * number from field 8.
   */
  function WuerthHeader(doc: Documento, fields: seq<string>, p: Parsers): (r: Option<Documento>)
    requires |fields| >= 40
    ensures r.Some? ==> r.value.Cliente_CodiceAssegnatoDalFornitore == Some(Trim(fields[0]))
                        && r.value.Cliente_AgileDesc == Some(Trim(fields[1]))
                        && r.value.DestinazioneMerce1 == Some(Trim(fields[2]))
                        && r.value.DestinazioneMerce2 == Some(PlaceLine(fields[3], fields[4], fields[5]))
  {
    var data :- p.DateTimeParse(Trim(fields[7]));
    Some(doc.(Cliente_CodiceAssegnatoDalFornitore := Some(Trim(fields[0])),
              Cliente_AgileDesc := Some(Trim(fields[1])),
              DestinazioneMerce1 := Some(Trim(fields[2])),
              DestinazioneMerce2 := Some(PlaceLine(fields[3], fields[4], fields[5])),
              DocData := data,
              DocNumero := Some(Trim(fields[8]))))
  }

  /**
   * The SVAI customer name: the first company-name line, followed by a space
   * and the second one only when the second is not empty.
   */
  function SvaiCustomerName(ragSoc1: string, ragSoc2: string): (name: string)
    ensures |ragSoc1| <= |name| && name[..|ragSoc1|] == ragSoc1
    ensures name == ragSoc1 <==> ragSoc2 == ""
    ensures ragSoc2 != "" ==> name[|ragSoc1|..] == " " + ragSoc2
  {
    var name := ragSoc1;
    if ragSoc2 != "" then name + " " + ragSoc2 else name
  }

  /**
   * SVAI: number from field 0, date from field 1, customer name from fields 2
   * and 3, street from field 4, the untrimmed fields 5, 6 and 7 as the place line.
   */
  function SvaiHeader(doc: Documento, fields: seq<string>, p: Parsers): (r: Option<Documento>)
    requires |fields| >= 21
    ensures r.Some? ==> r.value.Cliente_AgileDesc == Some(SvaiCustomerName(Trim(fields[2]), Trim(fields[3])))
                        && r.value.Cliente_CodiceAssegnatoDalFornitore == doc.Cliente_CodiceAssegnatoDalFornitore
                        && r.value.DestinazioneMerce1 == Some(Trim(fields[4]))
                        && r.value.DestinazioneMerce2 == Some(PlaceLine(fields[5], fields[6], fields[7]))
  {
    var data :- p.DateTimeParse(Trim(fields[1]));
    Some(doc.(DocNumero := Some(Trim(fields[0])),
              DocData := data,
              Cliente_AgileDesc := Some(SvaiCustomerName(Trim(fields[2]), Trim(fields[3]))),
              DestinazioneMerce1 := Some(Trim(fields[4])),
              DestinazioneMerce2 := Some(PlaceLine(fields[5], fields[6], fields[7]))))
  }

  /**
   * The line item of an accepted row on physical line `i`; `None` when one of
   * its numeric columns does not parse.
   */
  function MakeRiga(f: Format, i: nat, fields: seq<string>, p: Parsers): (r: Option<RigaDet>)
    requires IsDelimited(f) && |fields| >= MinFields(f)
  {
    match f
    case Innerhofer => InnerhoferRiga(i, fields, p)
    case Wuerth => WuerthRiga(fields, p)
    case Svai => SvaiRiga(fields, p)
  }

  /**
   * Innerhofer item: numbered by its physical line; supplier code, internal
   * code and description from fields 0 to 2; unit price, quantity and total
   * from fields 4 to 6.
   */
  function InnerhoferRiga(i: nat, fields: seq<string>, p: Parsers): (r: Option<RigaDet>)
    requires |fields| >= 9
    ensures r.Some? <==> p.DecimalParse(Trim(fields[4])).Some? && p.DecimalParse(Trim(fields[5])).Some?
                         && p.DecimalParse(Trim(fields[6])).Some?
    ensures r.Some? ==> r.value.RigaNumero == i && r.value.Qta == p.DecimalParse(Trim(fields[5])).value
                        && r.value.ArticoloCodiceFornitore == Some(Trim(fields[0]))
  {
    var prezzo :- p.DecimalParse(Trim(fields[4]));
    var qta :- p.DecimalParse(Trim(fields[5]));
    var totale :- p.DecimalParse(Trim(fields[6]));
    Some(EmptyRiga.(
      RigaNumero := i,
      ArticoloCodiceFornitore := Some(Trim(fields[0])),
      ArticoloCodiceGenerico := Some(Trim(fields[1])),
      ArticoloDescrizione := Some(Trim(fields[2])),
      PrezzoUnitario := Some(prezzo),
      Qta := qta,
      PrezzoTotale := Some(totale)))
  }

  /**
   * Wuerth item: its row number parsed from field 9, product code,
   * description and packaging from fields 10 to 12, customer order 14,
   * customer article code 16, unit 17, quantity, net price, line price and
   * VAT rate from fields 18, 19, 21 and 23, order number 25, EAN code 27.
   */
  function WuerthRiga(fields: seq<string>, p: Parsers): (r: Option<RigaDet>)
    requires |fields| >= 40
    ensures r.Some? <==> p.IntParse(Trim(fields[9])).Some? && p.DecimalParse(Trim(fields[18])).Some?
                         && p.DecimalParse(Trim(fields[19])).Some? && p.DecimalParse(Trim(fields[21])).Some?
                         && p.DecimalParse(Trim(fields[23])).Some?
    ensures r.Some? ==> r.value.RigaNumero == p.IntParse(Trim(fields[9])).value
                        && r.value.ArticoloCodiceFornitore == Some(Trim(fields[10]))
  {
    var numero :- p.IntParse(Trim(fields[9]));
    var qta :- p.DecimalParse(Trim(fields[18]));
    var prezzo :- p.DecimalParse(Trim(fields[19]));
    var totale :- p.DecimalParse(Trim(fields[21]));
    var iva :- p.DecimalParse(Trim(fields[23]));
    Some(EmptyRiga.(
      RigaNumero := numero,
      ArticoloCodiceFornitore := Some(Trim(fields[10])),
      ArticoloDescrizione := Some(Trim(fields[11])),
      Confezione := Some(Trim(fields[12])),
      RifOrdineCliente := Some(Trim(fields[14])),
      ArticoloCodiceGenerico := Some(Trim(fields[16])),
      UM := Some(Trim(fields[17])),
      Qta := qta,
      PrezzoUnitario := Some(prezzo),
      PrezzoTotale := Some(totale),
      IVAAliquota := iva,
      RifOrdineFornitore := Some(Trim(fields[25])),
      ArticoloBarcode := Some(Trim(fields[27]))))
  }

  /**
   * SVAI item: row type, article code, brand, description and supplier code
   * from fields 8 to 12; quantity, price, three discounts, net line total and
   * VAT rate from fields 13 to 19; order from field 20. The row number is
   * left at its default 0.
   */
  function SvaiRiga(fields: seq<string>, p: Parsers): (r: Option<RigaDet>)
    requires |fields| >= 21
    ensures r.Some? <==> p.DecimalParse(Trim(fields[13])).Some? && p.DecimalParse(Trim(fields[14])).Some?
                         && p.DecimalParse(Trim(fields[15])).Some? && p.DecimalParse(Trim(fields[16])).Some?
                         && p.DecimalParse(Trim(fields[17])).Some? && p.DecimalParse(Trim(fields[18])).Some?
                         && p.DecimalParse(Trim(fields[19])).Some?
    ensures r.Some? ==> r.value.RigaNumero == 0 && r.value.ArticoloCodiceFornitore == Some(Trim(fields[9]))
  {
    var qta :- p.DecimalParse(Trim(fields[13]));
    var prezzo :- p.DecimalParse(Trim(fields[14]));
    var sconto1 :- p.DecimalParse(Trim(fields[15]));
    var sconto2 :- p.DecimalParse(Trim(fields[16]));
    var sconto3 :- p.DecimalParse(Trim(fields[17]));
    var netto :- p.DecimalParse(Trim(fields[18]));
    var iva :- p.DecimalParse(Trim(fields[19]));
    Some(EmptyRiga.(
      RigaTipo := Some(Trim(fields[8])),
      ArticoloCodiceFornitore := Some(Trim(fields[9])),
      ArticoloMarca := Some(Trim(fields[10])),
      ArticoloDescrizione := Some(Trim(fields[11])),
      ArticoloCodiceGenerico := Some(Trim(fields[12])),
      Qta := qta,
      PrezzoUnitario := Some(prezzo),
      Sconto1 := Some(sconto1),
      Sconto2 := Some(sconto2),
      Sconto3 := Some(sconto3),
      PrezzoTotaleScontato := Some(netto),
      IVAAliquota := iva,
      RifOrdineFornitore := Some(Trim(fields[20]))))
  }
}
