/**
 * The text filters of the catalogue search (src/services/search.rs, src/utils/search.rs). Lower
 * case, trimming and the text form of a document are parameters.
 */
module TextFilters {
  import opened Prelude
  import opened JsonValue

  datatype Words = Words(lower: string -> string, trim: string -> string, show: Json -> string)

  /** The request parameters as they come in. */
  datatype Parameters = Parameters(provider: Option<string>, role: Option<string>, query: Option<string>,
                                   primary: Option<string>, exclude: Option<string>)

  datatype Filters = Filters(provider: Option<string>, roles: seq<string>, query: Option<string>,
                             primary: seq<string>, exclude: seq<string>)

  // ----------------------------------------------------------------------- parsing

  function Map(xs: seq<string>, f: string -> string): (r: seq<string>)
    ensures |r| == |xs| && forall i :: 0 <= i < |xs| ==> r[i] == f(xs[i])
  {
    if xs == [] then [] else [f(xs[0])] + Map(xs[1..], f)
  }

  /** The pieces between commas, trimmed and in lower case. */
  function Pieces(w: Words, text: string): seq<string> {
    Map(SplitOn(text, ','), s => w.lower(w.trim(s)))
  }

  function PiecesOf(w: Words, text: Option<string>): seq<string> {
    if text.Some? then Pieces(w, text.value) else []
  }

  function LowerOf(w: Words, text: Option<string>): Option<string> {
    if text.Some? then Some(w.lower(text.value)) else None
  }

  function Parse(w: Words, p: Parameters): Filters {
    Filters(LowerOf(w, p.provider), PiecesOf(w, p.role), LowerOf(w, p.query), PiecesOf(w, p.primary),
            PiecesOf(w, p.exclude))
  }

  // ---------------------------------------------------------------------- matching

  predicate Contains(text: string, piece: string) {
    exists i :: 0 <= i <= |text| && piece <= text[i..]
  }

  predicate ContainsAny(text: string, pieces: seq<string>) {
    exists piece :: piece in pieces && Contains(text, piece)
  }

  function Text(v: Option<Json>): string {
    if AsStr(v).Some? then AsStr(v).value else ""
  }

  /** The name in the descriptor of a provider or an item, in lower case. */
  function Name(w: Words, doc: Json): string {
    var descriptor := Get(doc, "descriptor");
    w.lower(if descriptor.Some? then Text(Get(descriptor.value, "name")) else "")
  }

  predicate TextMatches(w: Words, v: Option<Json>, word: string) {
    AsStr(v).Some? && Contains(w.lower(AsStr(v).value), word)
  }

  predicate DocumentMatches(w: Words, v: Option<Json>, word: string) {
    v.Some? && Contains(w.lower(w.show(v.value)), word)
  }

  predicate WordMatches(w: Words, providerName: string, item: Json, word: string) {
    Contains(w.lower(providerName), word) ||
    TextMatches(w, Pointer(item, "/descriptor/name"), word) ||
    DocumentMatches(w, Get(item, "locations"), word) ||
    TextMatches(w, Pointer(item, "/tags/industry"), word) ||
    TextMatches(w, Pointer(item, "/tags/role"), word) ||
    TextMatches(w, Pointer(item, "/tags/jobDetails/title"), word) ||
    DocumentMatches(w, Pointer(item, "/tags/jobProviderLocation"), word) ||
    DocumentMatches(w, Pointer(item, "/tags/basicInfo/jobProviderName"), word)
  }

  /** Some word of the query, empty ones aside, occurs somewhere. */
  predicate MatchesQuery(w: Words, providerName: string, item: Json, query: string) {
    exists word :: word in Pieces(w, query) && word != "" && WordMatches(w, providerName, item, word)
  }

  function Role(w: Words, item: Json): string {
    w.lower(Text(Pointer(item, "/tags/role")))
  }

  function Industry(w: Words, item: Json): string {
    w.lower(Text(Pointer(item, "/tags/industry")))
  }

  predicate MatchesExclude(w: Words, item: Json, excludes: seq<string>) {
    ContainsAny(Role(w, item), excludes) || ContainsAny(Industry(w, item), excludes)
  }

  predicate KeepProvider(w: Words, f: Filters, provider: Json) {
    f.provider.Some? ==> Contains(Name(w, provider), f.provider.value)
  }

  predicate RoleMatches(w: Words, f: Filters, item: Json) {
    exists role, wanted ::
      role in Map(SplitOn(Name(w, item), ','), w.trim) && wanted in f.roles && Contains(role, wanted)
  }

  predicate KeepItem(w: Words, f: Filters, provider: Json, item: Json) {
    (f.primary != [] ==> ContainsAny(Name(w, item), f.primary)) &&
    !MatchesExclude(w, item, f.exclude) &&
    (f.roles != [] ==> RoleMatches(w, f, item)) &&
    (f.query.Some? ==> MatchesQuery(w, Name(w, provider), item, f.query.value))
  }

  /** matches_query_dynamic: word after word, until one matches. */
  method MatchesQueryDynamic(w: Words, providerName: string, item: Json, query: string) returns (matches: bool)
    ensures matches == MatchesQuery(w, providerName, item, query)
  {
    hide WordMatches;
    hide Pieces;
    var words := Pieces(w, query);
    for i := 0 to |words|
      invariant forall m :: 0 <= m < i ==> words[m] == "" || !WordMatches(w, providerName, item, words[m])
    {
      if words[i] != "" && WordMatches(w, providerName, item, words[i]) {
        assert words[i] in words;
        return true;
      }
    }
    return false;
  }

  // ------------------------------------------------------------------- empty pieces

  lemma EmptyIsContained(text: string)
    ensures Contains(text, "")
  {
    assert "" <= text[0..];
  }

  lemma EmptyContainsIff(pieces: seq<string>)
    ensures ContainsAny("", pieces) <==> "" in pieces
  {
    EmptyIsContained("");
  }

  /**
   * An empty piece in the exclusion list rejects every item, and nothing else rejects an item
   * without role and industry.
   */
  lemma EmptyExclusionRejects(w: Words, item: Json, excludes: seq<string>)
    ensures "" in excludes ==> MatchesExclude(w, item, excludes)
    ensures Role(w, item) == "" && Industry(w, item) == "" ==> (MatchesExclude(w, item, excludes) <==> "" in excludes)
  {
    hide Role;
    hide Industry;
    EmptyIsContained(Role(w, item));
    EmptyContainsIff(excludes);
    hide Contains;
  }

  lemma {:induction false} LastPieceEmpty(text: string, separator: char)
    requires text != "" && text[|text| - 1] == separator
    ensures var pieces := SplitOn(text, separator); |pieces| > 1 && pieces[|pieces| - 1] == ""
  {
    var tail := text[1..];
    if tail == "" {
      assert SplitOn(text, separator) == [""] + [""];
    } else {
      LastPieceEmpty(tail, separator);
    }
  }

  lemma EmptyPieceLeft(w: Words, text: string)
    requires w.lower(w.trim("")) == "" && (text == "" || text[|text| - 1] == ',')
    ensures "" in Pieces(w, text)
  {
    var pieces := SplitOn(text, ',');
    if text != "" {
      LastPieceEmpty(text, ',');
    }
    var last := |pieces| - 1;
    assert pieces[last] == "" && Pieces(w, text)[last] == "";
  }

  /** A piece between commas that is blank. */
  ghost predicate HasBlankPiece(w: Words, text: string) {
    exists piece :: piece in SplitOn(text, ',') && w.lower(w.trim(piece)) == ""
  }

  lemma BlankPieceIff(w: Words, text: string)
    ensures "" in Pieces(w, text) <==> HasBlankPiece(w, text)
  {
    var pieces, words := SplitOn(text, ','), Pieces(w, text);
    if "" in words {
      var i :| 0 <= i < |words| && words[i] == "";
      assert pieces[i] in pieces;
    }
    if piece :| piece in pieces && w.lower(w.trim(piece)) == "" {
      var i :| 0 <= i < |pieces| && pieces[i] == piece;
      assert words[i] == "";
    }
  }

  /**
   * An exclusion parameter rejects every item if and only if one of its pieces is blank: when it is
   * empty, begins or ends with a comma, has two commas in a row or blanks between them.
   */
  lemma ExcludesEverythingIff(w: Words, text: string)
    requires w.lower("") == ""
    ensures (forall item :: MatchesExclude(w, item, Pieces(w, text))) <==> HasBlankPiece(w, text)
  {
    BlankPieceIff(w, text);
    forall item ensures "" in Pieces(w, text) ==> MatchesExclude(w, item, Pieces(w, text)) {
      EmptyExclusionRejects(w, item, Pieces(w, text));
    }
    NothingInNull(w);
    EmptyExclusionRejects(w, Null, Pieces(w, text));
    hide MatchesExclude;
    hide Pieces;
  }

  lemma NothingInNull(w: Words)
    requires w.lower("") == ""
    ensures Role(w, Null) == "" && Industry(w, Null) == ""
  {
    PointerIntoNull("/tags/role");
    PointerIntoNull("/tags/industry");
  }

  lemma PointerIntoNull(path: string)
    requires path != "" && path[0] == '/'
    ensures Pointer(Null, path) == None
  {}

  /** Then nothing is found, whatever the other parameters say; so it is after a trailing comma. */
  lemma BlankPieceEmptiesTheSearch(w: Words, p: Parameters, provider: Json, item: Json)
    requires p.exclude.Some? && HasBlankPiece(w, p.exclude.value)
    ensures !KeepItem(w, Parse(w, p), provider, item)
  {
    BlankPieceIff(w, p.exclude.value);
    EmptyExclusionRejects(w, item, Parse(w, p).exclude);
    hide MatchesExclude;
    hide Pieces;
    hide Name;
    hide ContainsAny;
    hide RoleMatches;
    hide MatchesQuery;
  }

  lemma TrailingCommaExcludesEverything(w: Words, p: Parameters, provider: Json, item: Json)
    requires w.lower(w.trim("")) == "" && p.exclude.Some?
    requires p.exclude.value == "" || p.exclude.value[|p.exclude.value| - 1] == ','
    ensures !KeepItem(w, Parse(w, p), provider, item)
  {
    EmptyPieceLeft(w, p.exclude.value);
    BlankPieceIff(w, p.exclude.value);
    BlankPieceEmptiesTheSearch(w, p, provider, item);
  }
}
