/** The global search matcher: a static catalog of entries, each leading to a section
    of the portal or to an external page, filtered by a normalised query. */
module Search {
  import opened Options
  import Lists
  import Text
  import Tablon

  /** The portal's sections, in the order of the header's tab buttons. */
  datatype Tab = Proceso | Anuncios | Material | Apoyo | Tutoriales | Fcyt

  /** A catalog entry (`title` is the displayed label). Exactly one of `tab` and `url` is set in the catalog below;
      `anchorId`, `focusSelector` and `tablonFilter` only come with a `tab`. */
  datatype SearchItem = SearchItem(
    id: string,
    title: string,
    description: string,
    tab: Option<Tab>,
    anchorId: Option<string>,
    focusSelector: Option<string>,
    tablonFilter: Option<Tablon.Category>,
    url: Option<string>,
    keywords: seq<string>)

  /** The dropdown never lists more than this many entries. */
  const MaxResults: nat := 8

  /** The query as it is matched: trimmed, then lower-cased. It is empty exactly when the text
      typed is blank. */
  function Normalize(query: string): (r: string)
    ensures |r| <= |query|
    ensures r == [] <==> Text.IsBlank(query)
  {
    Text.TrimEmptyIffBlank(query);
    Text.Lower(Text.Trim(query))
  }

  /** The text a query is looked for in: label, description and keywords, joined by spaces and
      lower-cased. */
  function Haystack(item: SearchItem): (r: string)
    ensures |r| == |item.title| + |item.description| + |Text.Join(item.keywords, " ")| + 2
    ensures forall k :: 0 <= k < |item.title| ==> r[k] == Text.LowerChar(item.title[k])
  {
    var text := item.title + " " + item.description + " " + Text.Join(item.keywords, " ");
    assert forall k :: 0 <= k < |item.title| ==> text[k] == item.title[k];
    Text.Lower(text)
  }

  /** The haystack contains the query: the empty query matches everything, and a match is
      never longer than the haystack. */
  predicate Matches(item: SearchItem, q: string): (r: bool)
    ensures q == [] ==> r
    ensures r ==> |q| <= |Haystack(item)|
  {
    assert q == [] ==> Text.OccursAt(Haystack(item), q, 0);
    Text.Contains(Haystack(item), q)
  }

  /** The matcher for query `q`, as the predicate handed to `filter`. */
  function MatchesQuery(q: string): SearchItem -> bool
  {
    (x: SearchItem) => Matches(x, q)
  }

  /** Every catalog entry matching `q`, in catalog order. */
  function Hits(q: string, catalog: seq<SearchItem>): seq<SearchItem>
  {
    Lists.Filter(catalog, MatchesQuery(q))
  }

  /** The entries listed for an already normalised query `q`: the head of the catalog when
      `q` is empty, otherwise the first eight entries whose haystack contains `q`, in catalog order. */
  function Listed(q: string, catalog: seq<SearchItem>): (r: seq<SearchItem>)
    ensures |r| <= MaxResults
    ensures Lists.Subseq(r, catalog)
    ensures q == [] ==> |r| == (if |catalog| < MaxResults then |catalog| else MaxResults) && r == catalog[..|r|]
    ensures q != [] ==> forall x :: x in r ==> Matches(x, q)
    ensures q != [] ==> forall x :: x in catalog && Matches(x, q) && x !in r ==> |r| == MaxResults
    ensures q != [] ==> |r| == (if |Hits(q, catalog)| < MaxResults then |Hits(q, catalog)| else MaxResults)
    ensures q != [] ==> r == Hits(q, catalog)[..|r|]
  {
    if q == [] then
      var r := Lists.Take(catalog, MaxResults);
      Lists.SubseqRefl(catalog);
      Lists.SubseqPrefix(catalog, catalog, |r|);
      r
    else
      Lists.FirstMatching(catalog, MatchesQuery(q), MaxResults)
  }

  /** The dropdown's entries for the text typed in the search box. */
  function Results(query: string, catalog: seq<SearchItem>): (r: seq<SearchItem>)
    ensures |r| <= MaxResults
    ensures Lists.Subseq(r, catalog)
    ensures Text.IsBlank(query) ==> |r| == (if |catalog| < MaxResults then |catalog| else MaxResults) && r == catalog[..|r|]
    ensures !Text.IsBlank(query) ==> forall x :: x in r ==> Matches(x, Normalize(query))
    ensures !Text.IsBlank(query) ==>
              forall x :: x in catalog && Matches(x, Normalize(query)) && x !in r ==> |r| == MaxResults
    ensures !Text.IsBlank(query) ==>
              && |r| == (if |Hits(Normalize(query), catalog)| < MaxResults then |Hits(Normalize(query), catalog)| else MaxResults)
              && r == Hits(Normalize(query), catalog)[..|r|]
  {
    Listed(Normalize(query), catalog)
  }

  /** An entry that matches the query and comes first in the catalog is listed first. */
  lemma FirstCatalogMatchListedFirst(query: string, catalog: seq<SearchItem>)
    requires Normalize(query) != [] && catalog != [] && Matches(catalog[0], Normalize(query))
    ensures Results(query, catalog) != [] && Results(query, catalog)[0] == catalog[0]
  {
    Lists.FirstMatchingHead(catalog, MatchesQuery(Normalize(query)), MaxResults);
  }

  /** A query that is one of an entry's keywords, lower-cased, finds that entry. */
  lemma KeywordFindsEntry(item: SearchItem, k: nat)
    requires k < |item.keywords|
    ensures Matches(item, Text.Lower(item.keywords[k]))
  {
    var joined := Text.Join(item.keywords, " ");
    Text.JoinContainsParts(item.keywords, " ", k);
    var i :| Text.OccursAt(joined, item.keywords[k], i);
    var prefix := item.title + " " + item.description + " ";
    Text.OccursInSuffix(prefix, joined, item.keywords[k], i);
    Text.LowerKeepsOccurrence(prefix + joined, item.keywords[k], |prefix| + i);
  }

  /** The portal's catalog. */
  const SearchItems: seq<SearchItem> := [
    SearchItem("cronograma", "Cronograma oficial", "Fechas importantes", Some(Proceso), Some("cronograma"), None, None, None,
      ["cronograma", "calendario", "fechas", "aulas", "resultados"]),
    SearchItem("costos", "Costos de admisión", "Resumen de costos", Some(Proceso), Some("costos"), None, None, None,
      ["costos", "precio", "pago", "bs", "inscripción"]),
    SearchItem("documentos", "Documentos requeridos", "Guía y ejemplos", Some(Proceso), Some("documentos"), None, None, None,
      ["documentos", "requisitos", "ci", "diploma", "nacimiento"]),
    SearchItem("checklist", "Checklist de documentos (PDF)", " ", Some(Proceso), Some("checklist"), None, None, None,
      ["checklist", "lista", "pdf", "descargar"]),
    SearchItem("convocatorias", "Convocatorias", " ", Some(Anuncios), None, None, Some(Tablon.Convocatorias), None,
      ["convocatorias", "anuncios", "urgente", "abierto"]),
    SearchItem("examenes", "Noticias de exámenes", " ", Some(Anuncios), None, None, Some(Tablon.Examenes), None,
      ["examenes", "notas", "aulas", "resultados"]),
    SearchItem("noticias", "Noticias generales", " ", Some(Anuncios), None, None, Some(Tablon.Noticias), None,
      ["noticias", "comunicado", "aviso", "importante"]),
    SearchItem("material", "Material de estudio", " ", Some(Material), Some("material-buscador"),
      Some("input[data-material-search=\"true\"]"), None, None,
      ["pdf", "material", "exámenes", "temario", "guías", "solucionario"]),
    SearchItem("contactos", "Personal de contacto", "Teléfonos y correos", Some(Apoyo), Some("personal-contacto"), None, None, None,
      ["contacto", "personal", "teléfono", "correo", "coordinadora"]),
    SearchItem("redes", "Redes sociales oficiales", " ", Some(Apoyo), Some("redes-sociales"), None, None, None,
      ["redes", "telegram", "whatsapp", "facebook"]),
    SearchItem("formulario", "Enviar consulta", "Formulario", Some(Apoyo), Some("formulario-contacto"), None, None, None,
      ["formulario", "consulta", "mensaje", "ayuda"]),
    SearchItem("tutoriales-pasos", "Tutorial", "Guía paso a paso", Some(Tutoriales), Some("tutoriales-pasos"), None, None, None,
      ["tutorial", "pasos", "inscripción", "saga", "websis"]),
    SearchItem("manual", "Manual Registro al Sistema", " ", Some(Tutoriales), Some("manual-descargable"), None, None, None,
      ["manual", "pdf", "descargar", "guía"]),
    SearchItem("fcyt", "Página Oficial FCYT", " ", None, None, None, None,
      Some("https://sagaa.fcyt.umss.edu.bo/admision/noticias.php"),
      ["fcyt", "oficial", "web", "noticias"])
  ]

  /** Every entry either navigates inside the portal or opens an external page, never both. */
  lemma CatalogWellFormed()
    ensures forall i :: 0 <= i < |SearchItems| ==> (SearchItems[i].tab != None <==> SearchItems[i].url == None)
  {
  }

  /** The empty query lists the first eight catalog entries. */
  lemma EmptyQueryScenario()
    ensures Results("", SearchItems) == SearchItems[..8]
  {
  }
}
