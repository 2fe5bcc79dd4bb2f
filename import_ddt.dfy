/**
 * `DR_Contab_ImportDDT`: the registry of readers, the placeholder Spazio
 * reader and `ReadDDT`, which detects the format from the file name when no
 * format is given and hands the text to the registered reader.
 */
module ImportDdt {
  import opened Wrappers
  import opened Strings
  import opened Documents
  import opened FormatDetection
  import opened VendorLayouts
  import opened DelimitedReaders

  /** `ReadDDT_from_SPAZIO`: whatever the text, a document with the Spazio identity and nothing else. */
  function ReadSpazio(text: string): (d: Documento)
    ensures d.RigheDelDoc == []
    ensures d.Fornitore_AgileID == Some("SPAZIO") && d.DocTipo == Some("DDT")
    ensures d.DocNumero.None? && d.DocData == MinValue && d.FornitoreDescrizione.None?
    ensures d.Cliente_AgileDesc.None? && d.Cliente_CodiceAssegnatoDalFornitore.None?
    ensures d.DestinazioneMerce1.None? && d.DestinazioneMerce2.None?
  {
    Initial(Spazio)
  }

  /** What the reader registered for `f` returns for `text`. */
  function ReadSpec(f: Format, text: string, p: Parsers): Result<Documento, Error>
  {
    if f == Spazio then Ok(ReadSpazio(text)) else ReadDelimitedSpec(f, text, p)
  }

  /** `string.IsNullOrEmpty` on an optional string. */
  predicate IsNullOrEmpty(s: Option<string>)
  {
    s.None? || s.value == ""
  }

  /**
   * `ReadDDT`: without a format (null or empty), the format is detected from
   * the file name (not from the text) and reading fails when none is found;
   * with one, detection is skipped and the format must be a registered key.
   */
  method ReadDDT(fileName: string, text: string, formatoDelTracciato: Option<string>, p: Parsers)
    returns (r: Result<Documento, Error>)
    ensures IsNullOrEmpty(formatoDelTracciato) && DetectFormat(fileName).None? ==> r == Err(FormatUndetermined)
    ensures IsNullOrEmpty(formatoDelTracciato) && DetectFormat(fileName).Some? ==>
              r == ReadSpec(DetectFormat(fileName).value, text, p)
    ensures !IsNullOrEmpty(formatoDelTracciato) && formatoDelTracciato.value in FormatReaders ==>
              r == ReadSpec(FormatReaders[formatoDelTracciato.value], text, p)
    ensures !IsNullOrEmpty(formatoDelTracciato) && formatoDelTracciato.value !in FormatReaders ==>
              r == Err(UnknownFormat(formatoDelTracciato.value))
  {
    var formato: string;
    if IsNullOrEmpty(formatoDelTracciato) {
      var detected := DetectFormat(fileName);
      if detected == None {
        return Err(FormatUndetermined);
      }
      formato := Key(detected.value);
      RegistryMatchesKeys();
    } else {
      formato := formatoDelTracciato.value;
    }
    if formato !in FormatReaders {
      return Err(UnknownFormat(formato));
    }
    var f := FormatReaders[formato];
    if f == Spazio {
      r := Ok(ReadSpazio(text));
    } else {
      r := ReadDelimited(f, text, p);
    }
  }
}
