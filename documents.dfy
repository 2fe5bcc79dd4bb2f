/**
 * The uniform document the importer produces: `DocumentoToImport` (the
 * delivery-note header) and `RigaDet` (one line item). C# `string`
 * properties are nullable, so each is an `Option<string>` whose `None` is
 * `null`; `decimal` is `real`, `decimal?` is `Option<real>`.
 */
module Documents {
  import opened Wrappers

  /** A `System.DateTime`, identified by its tick count. */
  datatype DateTime = DateTime(ticks: int)

  /** `DateTime.MinValue`, the value of an unassigned `DateTime` property. */
  const MinValue: DateTime := DateTime(0)

  /** One line item of a delivery note. */
  datatype RigaDet = RigaDet(
    RigaNumero: int,
    RigaTipo: Option<string>,
    ArticoloCodiceGenerico: Option<string>,
    ArticoloCodiceFornitore: Option<string>,
    ArticoloMarca: Option<string>,
    ArticoloDescrizione: Option<string>,
    ArticoloBarcode: Option<string>,
    Qta: real,
    UM: Option<string>,
    Confezione: Option<string>,
    PrezzoUnitario: Option<real>,
    Sconto1: Option<real>,
    Sconto2: Option<real>,
    Sconto3: Option<real>,
    PrezzoTotale: Option<real>,
    PrezzoTotaleScontato: Option<real>,
    IVAAliquota: real,
    RifOrdineFornitore: Option<string>,
    RifOrdineCliente: Option<string>)

  /** `new RigaDet()`: every property at its default. */
  const EmptyRiga: RigaDet := RigaDet(0, None, None, None, None, None, None, 0.0, None, None,
                                      None, None, None, None, None, None, 0.0, None, None)

  /** A delivery note: its header fields and its line items in input order. */
  datatype Documento = Documento(
    Fornitore_AgileID: Option<string>,
    FornitoreDescrizione: Option<string>,
    Cliente_CodiceAssegnatoDalFornitore: Option<string>,
    Cliente_AgileDesc: Option<string>,
    DocTipo: Option<string>,
    DocNumero: Option<string>,
    DocData: DateTime,
    DestinazioneMerce1: Option<string>,
    DestinazioneMerce2: Option<string>,
    RigheDelDoc: seq<RigaDet>)

  /** `new DocumentoToImport()`: every property at its default, no line items. */
  const EmptyDocumento: Documento := Documento(None, None, None, None, None, None, MinValue, None, None, [])

  /** The header of a document: everything but its line items. */
  function Header(d: Documento): Documento
  {
    d.(RigheDelDoc := [])
  }

  /**
   * The culture-dependent parsers of the .NET base library, as partial
   * functions: `None` is the exception (`FormatException`,
   * `OverflowException`) the real call would throw.
   */
  datatype Parsers = Parsers(
    DecimalParse: string -> Option<real>,   // decimal.Parse(_, CultureInfo.InvariantCulture)
    IntParse: string -> Option<int>,        // int.Parse(_)
    DateTimeParse: string -> Option<DateTime>) // DateTime.Parse(_)

  /** Why a read can fail. */
  datatype Error =
    | FormatUndetermined     // no vendor token in the file name (InvalidOperationException)
    | UnknownFormat(key: string) // the format key is not registered (KeyNotFoundException)
    | ParseFailure(line: nat)    // a value on this physical line did not parse
}
