/**
 * The extraction half of the status job (`actualizar_estado`): the fetched
 * page becomes three display texts, the status label, its freshness and the
 * opening hours, with a fixed fallback text for every way the page can fail
 * to provide one. Extraction is a total function: no page makes it fail.
 *
 * The page is an abstract list of elements in document order. Each element
 * has its tag name, its class tokens, the text pieces it contains, its
 * `.string`, and the text node right after it, if there is one.
 */
module StatusExtraction {
  import opened Wrappers
  import opened Text
  import opened HoursPattern

  /**
   * An element of the parsed page. `strings` are all the text pieces inside
   * it, in order. `soleString` is its `.string`: present only when the element
   * has exactly one child and that child is text, or is itself an element
   * with a `.string`. An element with one text piece and another child, such
   * as a trailing `<br/>`, has none.
   */
  datatype Node = Node(
    tag: string,
    classes: seq<string>,
    strings: seq<string>,
    soleString: Option<string>,
    nextSibling: Option<string>)

  /** The outcome of fetching the page: an error message, or the parsed elements. */
  datatype PageFetch = FetchFailed(error: string) | Fetched(nodes: seq<Node>)

  /** The three texts the job stores. */
  datatype Snapshot = Snapshot(estado: string, actualizado: string, horarioAtencion: string)

  const NoTimeYet: string := "No se pudo determinar el tiempo"
  const StatusNotFound: string := "Estado no encontrado"
  const TimeNotVisible: string := "Tiempo no visible en el nodo adyacente"
  const NoLabel: string := "Etiqueta " + "'Horarios de atención:' no encontrada"
  const NoAdjacentText: string := "No se encontró texto adyacente"
  const PatternNotFound: string := "Patrón de hora no encontrado"
  const ConnectionError: string := "Error de conexión/parsing"
  const HoursUnavailable: string := "No disponible debido a error de conexión"

  /** The text of the hours label. */
  const HoursLabel: string := "Horarios de atención:"

  /** A class token the status pattern `label-(success|warning|danger)` finds, ignoring case. */
  predicate IsStatusClass(c: string)
  {
    || ContainsIgnoringCase(c, "label-success")
    || ContainsIgnoringCase(c, "label-warning")
    || ContainsIgnoringCase(c, "label-danger")
  }

  /** A `span` with a status class. */
  predicate IsStatusSpan(n: Node)
  {
    n.tag == "span" && exists k :: 0 <= k < |n.classes| && IsStatusClass(n.classes[k])
  }

  /** A `strong` whose `.string` contains the hours label, ignoring case. */
  predicate IsHoursLabel(n: Node)
  {
    n.tag == "strong" && n.soleString.Some? && ContainsIgnoringCase(n.soleString.value, HoursLabel)
  }

  /** Position of the first element satisfying `p` (`soup.find`). */
  function FirstWhere(nodes: seq<Node>, p: Node -> bool): (r: Option<nat>)
    ensures r.Some? ==> r.value < |nodes| && p(nodes[r.value])
    ensures r.Some? ==> forall k :: 0 <= k < r.value ==> !p(nodes[k])
    ensures r.None? <==> forall k :: 0 <= k < |nodes| ==> !p(nodes[k])
  {
    if nodes == [] then None
    else if p(nodes[0]) then Some(0)
    else
      match FirstWhere(nodes[1..], p)
      case None => None
      case Some(i) => Some(i + 1)
  }

  /** `get_text(strip=True)`: every text piece stripped, then joined. */
  function StrippedText(strings: seq<string>): string
  {
    if strings == [] then [] else Strip(strings[0]) + StrippedText(strings[1..])
  }

  /** The freshness text: the status element's next text, stripped, unless it is missing or blank. */
  function Freshness(sibling: Option<string>): string
  {
    if sibling.Some? && Strip(sibling.value) != [] then Strip(sibling.value) else TimeNotVisible
  }

  /** The hours text read from the label's next text. */
  function HoursFromText(sibling: Option<string>): string
  {
    if sibling.None? || sibling.value == [] then NoAdjacentText
    else
      match Search(sibling.value)
      case None => PatternNotFound
      case Some(m) => Strip(sibling.value[m.start..m.end])
  }

  /** The status and its freshness, from the first status span. */
  function StatusOf(nodes: seq<Node>): (string, string)
  {
    match FirstWhere(nodes, IsStatusSpan)
    case None => (StatusNotFound, NoTimeYet)
    case Some(i) => (StrippedText(nodes[i].strings), Freshness(nodes[i].nextSibling))
  }

  /** The opening hours, from the first hours label. */
  function HoursOf(nodes: seq<Node>): string
  {
    match FirstWhere(nodes, IsHoursLabel)
    case None => NoLabel
    case Some(i) => HoursFromText(nodes[i].nextSibling)
  }

  /** The three texts the job stores for a fetch outcome. */
  function Extract(page: PageFetch): Snapshot
  {
    match page
    case FetchFailed(e) => Snapshot(ConnectionError, e, HoursUnavailable)
    case Fetched(nodes) =>
      var (estado, actualizado) := StatusOf(nodes);
      Snapshot(estado, actualizado, HoursOf(nodes))
  }

  // ---------------------------------------------------------------------
  // What the extraction promises
  // ---------------------------------------------------------------------

  /**
   * Without a status span the status is "Estado no encontrado" and the
   * freshness keeps its initial text; with one, both come from the first
   * status span of the page.
   */
  lemma StatusFromFirstSpan(nodes: seq<Node>)
    ensures (forall k :: 0 <= k < |nodes| ==> !IsStatusSpan(nodes[k])) ==>
              Extract(Fetched(nodes)).estado == StatusNotFound &&
              Extract(Fetched(nodes)).actualizado == NoTimeYet
    ensures (exists k :: 0 <= k < |nodes| && IsStatusSpan(nodes[k])) ==>
              exists i :: 0 <= i < |nodes| && IsStatusSpan(nodes[i]) &&
                (forall k :: 0 <= k < i ==> !IsStatusSpan(nodes[k])) &&
                Extract(Fetched(nodes)).estado == StrippedText(nodes[i].strings) &&
                Extract(Fetched(nodes)).actualizado == Freshness(nodes[i].nextSibling)
  {
    var r := FirstWhere(nodes, IsStatusSpan);
    if r.Some? {
      var i := r.value;
      assert IsStatusSpan(nodes[i]);
    }
  }

  /**
   * The freshness is the stripped next text exactly when that text holds
   * something other than whitespace; otherwise it is "Tiempo no visible en el
   * nodo adyacente".
   */
  lemma FreshnessLaw(sibling: Option<string>)
    ensures sibling.Some? && !AllSpaces(sibling.value) ==>
              Freshness(sibling) == Strip(sibling.value) && Freshness(sibling) != []
    ensures sibling.None? || AllSpaces(sibling.value) ==> Freshness(sibling) == TimeNotVisible
  {
    if sibling.Some? {
      StripEmptyIff(sibling.value);
    }
  }

  /** Case-insensitive matching makes `label-SUCCESS` a status class too. */
  lemma StatusClassIgnoresCase()
    ensures IsStatusClass("label-SUCCESS")
  {
    var c := "label-SUCCESS";
    assert OccursAt(c, 0, "label-success");
  }

  /** The hours come from the first label, and say which step failed when they cannot be read. */
  lemma HoursFallbacks(nodes: seq<Node>)
    ensures (forall k :: 0 <= k < |nodes| ==> !IsHoursLabel(nodes[k])) <==>
              Extract(Fetched(nodes)).horarioAtencion == NoLabel
    ensures forall i :: 0 <= i < |nodes| && IsHoursLabel(nodes[i]) && (forall k :: 0 <= k < i ==> !IsHoursLabel(nodes[k])) ==>
              Extract(Fetched(nodes)).horarioAtencion == HoursFromText(nodes[i].nextSibling)
  {
    var r := FirstWhere(nodes, IsHoursLabel);
    if r.Some? {
      HoursFromTextNeverNoLabel(nodes[r.value].nextSibling);
    }
    forall i | 0 <= i < |nodes| && IsHoursLabel(nodes[i]) && (forall k :: 0 <= k < i ==> !IsHoursLabel(nodes[k]))
      ensures r == Some(i)
    {
      assert r.Some?;
      assert !(r.value < i);
    }
  }

  /** Text that starts with a digit is none of the hours fallback texts. */
  lemma DigitFirstIsNoFallback(h: string)
    requires h != [] && IsDigit(h[0])
    ensures h != NoLabel && h != NoAdjacentText && h != PatternNotFound
  {
    assert NoLabel[0] == 'E' && NoAdjacentText[0] == 'N' && PatternNotFound[0] == 'P';
  }

  /**
   * The hours stored for a next text with a match: the matched text as it
   * stands, four digits first and "HS" (in either case) last.
   */
  lemma HoursMatchShape(s: string)
    requires s != [] && Search(s).Some?
    ensures HoursFromText(Some(s)) == s[Search(s).value.start..Search(s).value.end]
    ensures var h := HoursFromText(Some(s));
            && |h| >= 12 && (forall k :: 0 <= k < 4 ==> IsDigit(h[k]))
            && IsH(h[|h| - 2]) && IsS(h[|h| - 1])
  {
    var m := Search(s).value;
    assert HoursFromText(Some(s)) == Strip(s[m.start..m.end]);
    MatchShape(s, m.start, m.end);
  }

  /** The hours stored for a next text with a match begin with a digit. */
  lemma HoursMatchStartsWithDigit(s: string)
    requires s != [] && Search(s).Some?
    ensures HoursFromText(Some(s)) != [] && IsDigit(HoursFromText(Some(s))[0])
  {
    HoursMatchShape(s);
  }

  /** Reading the label's next text never reports a missing label. */
  lemma HoursFromTextNeverNoLabel(sibling: Option<string>)
    ensures HoursFromText(sibling) != NoLabel
  {
    if sibling.Some? && sibling.value != [] && Search(sibling.value).Some? {
      HoursMatchStartsWithDigit(sibling.value);
      DigitFirstIsNoFallback(HoursFromText(sibling));
    } else {
      assert NoLabel[0] == 'E' && NoAdjacentText[0] == 'N' && PatternNotFound[0] == 'P';
    }
  }

  /** "No se encontró texto adyacente" is reported exactly when the label has no next text, or an empty one. */
  lemma HoursNoTextIff(sibling: Option<string>)
    ensures HoursFromText(sibling) == NoAdjacentText <==> sibling.None? || sibling.value == []
  {
    if sibling.Some? && sibling.value != [] && Search(sibling.value).Some? {
      HoursMatchStartsWithDigit(sibling.value);
      DigitFirstIsNoFallback(HoursFromText(sibling));
    } else {
      assert NoAdjacentText[0] != PatternNotFound[0];
    }
  }

  /** "Patrón de hora no encontrado" is reported exactly when the next text holds no match at all. */
  lemma HoursNoPatternIff(sibling: Option<string>)
    ensures HoursFromText(sibling) == PatternNotFound <==>
              sibling.Some? && sibling.value != [] &&
              forall i: nat, j: nat :: !MatchSpan(sibling.value, i, j)
  {
    if sibling.Some? && sibling.value != [] {
      var s := sibling.value;
      SearchIsLeftmost(s);
      if Search(s).Some? {
        HoursMatchStartsWithDigit(s);
        DigitFirstIsNoFallback(HoursFromText(sibling));
        assert MatchSpan(s, Search(s).value.start, Search(s).value.end);
      }
    } else {
      assert NoAdjacentText[0] != PatternNotFound[0];
    }
  }

  /** With a match in the next text, the hours are the match that starts before every other one. */
  lemma HoursLeftmostMatch(s: string)
    requires s != [] && Search(s).Some?
    ensures var m := Search(s).value;
            && HoursFromText(Some(s)) == s[m.start..m.end]
            && MatchSpan(s, m.start, m.end)
            && (forall i: nat, j: nat :: MatchSpan(s, i, j) ==> m.start <= i)
  {
    HoursMatchShape(s);
    SearchIsLeftmost(s);
  }

  /** Any fetch failure replaces all three texts, whatever the page would have held. */
  lemma FetchFailureCollapses(e: string)
    ensures Extract(FetchFailed(e)).estado == ConnectionError
    ensures Extract(FetchFailed(e)).actualizado == e
    ensures Extract(FetchFailed(e)).horarioAtencion == HoursUnavailable
  {
  }
}
