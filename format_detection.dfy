/**
 * The four vendor layouts the importer knows, the registry that maps each
 * format key to its reader, and the detection of a layout from a name.
 */
module FormatDetection {
  import opened Wrappers
  import opened Strings

  datatype Format = Innerhofer | Wuerth | Svai | Spazio

  /** The key under which the format's reader is registered (and which detection returns). */
  function Key(f: Format): (k: string)
  {
    match f
    case Innerhofer => "Innerhofer"
    case Wuerth => "Wuerth"
    case Svai => "Svai"
    case Spazio => "Spazio"
  }

  /** The reader registry, keyed case-sensitively by format key. */
  const FormatReaders: map<string, Format> :=
    map["Innerhofer" := Innerhofer, "Wuerth" := Wuerth, "Spazio" := Spazio, "Svai" := Svai]

  /** Every format is registered under its key, and nothing else is registered. */
  lemma RegistryMatchesKeys()
    ensures forall f: Format :: Key(f) in FormatReaders && FormatReaders[Key(f)] == f
    ensures forall k :: k in FormatReaders ==> exists f: Format :: Key(f) == k
  {
    assert FormatReaders.Keys == {Key(Innerhofer), Key(Wuerth), Key(Spazio), Key(Svai)};
  }

  /** The upper-case token whose presence in a name selects the format. */
  function Token(f: Format): string
  {
    match f
    case Innerhofer => "INNERHOFER"
    case Wuerth => "WUERTH"
    case Svai => "SVAI"
    case Spazio => "SPAZIO"
  }

  /** The order in which detection tries the tokens: a smaller number wins. */
  function Priority(f: Format): nat
  {
    match f
    case Innerhofer => 0
    case Wuerth => 1
    case Svai => 2
    case Spazio => 3
  }

  predicate Mentions(name: string, f: Format)
  {
    ContainsIgnoreCase(name, Token(f))
  }

  /**
   * `DeterminaFormatoTracciato`: the first format, in priority order, whose
   * token occurs in `name` ignoring case; `None` when no token occurs.
   */
  function DetectFormat(name: string): (r: Option<Format>)
    ensures r.Some? ==> Mentions(name, r.value)
    ensures r.Some? ==> forall g: Format :: Priority(g) < Priority(r.value) ==> !Mentions(name, g)
    ensures r.None? <==> forall g: Format :: !Mentions(name, g)
  {
    if Mentions(name, Innerhofer) then Some(Innerhofer)
    else if Mentions(name, Wuerth) then Some(Wuerth)
    else if Mentions(name, Svai) then Some(Svai)
    else if Mentions(name, Spazio) then Some(Spazio)
    else None
  }

  /** The contract of `DetectFormat` pins its result down: at most one format satisfies it. */
  lemma DetectionIsPriorityChoice(name: string, f: Format)
    requires Mentions(name, f)
    requires forall g: Format :: Priority(g) < Priority(f) ==> !Mentions(name, g)
    ensures DetectFormat(name) == Some(f)
  {
  }

  /** Detection returns a registered key. */
  lemma DetectedKeyIsRegistered(name: string)
    requires DetectFormat(name).Some?
    ensures Key(DetectFormat(name).value) in FormatReaders
    ensures FormatReaders[Key(DetectFormat(name).value)] == DetectFormat(name).value
  {
  }

  /** The export name in the program's closing comment (Program.cs:387) is detected as Innerhofer. */
  lemma SampleNameIsInnerhofer()
    ensures DetectFormat("Innerhofer DDT 23-24.csv") == Some(Innerhofer)
  {
    assert MatchesAt("Innerhofer DDT 23-24.csv", Token(Innerhofer), 0);
  }

  /** A name mentioning both Wuerth and SVAI, but not Innerhofer, is read as Wuerth, which detection tries first. */
  lemma WuerthBeforeSvai(name: string)
    requires Mentions(name, Wuerth) && Mentions(name, Svai) && !Mentions(name, Innerhofer)
    ensures DetectFormat(name) == Some(Wuerth)
  {
  }

  /** The name `wuerth-svai.csv` mentions Wuerth and SVAI but not Innerhofer, so it is read as Wuerth. */
  lemma WuerthSvaiSampleName()
    ensures DetectFormat("wuerth-svai.csv") == Some(Wuerth)
  {
    var name := "wuerth-svai.csv";
    assert MatchesAt(name, Token(Wuerth), 0);
    forall i: nat ensures !MatchesAt(name, Token(Innerhofer), i) {
      if i + 10 <= |name| {
        assert Upper(name[i]) != Upper(Token(Innerhofer)[0]);
      }
    }
  }
}
