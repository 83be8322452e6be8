/**
 * When an item passes the text filters of the catalogue search (src/services/search.rs,
 * src/utils/search.rs), said on the request parameters and on the texts in the documents.
 */
module FilterLaws {
  import opened Prelude
  import opened JsonValue
  import opened TextFilters

  ghost predicate Occurs(piece: string, text: string) {
    exists before, after :: text == before + piece + after
  }

  lemma ContainsIff(text: string, piece: string)
    ensures Contains(text, piece) <==> Occurs(piece, text)
  {
    if i :| 0 <= i <= |text| && piece <= text[i..] {
      assert text == text[..i] + piece + text[i + |piece|..];
    }
    if before, after :| text == before + piece + after {
      assert text[|before|..] == piece + after;
    }
  }

  /** The word is a piece between the commas of the parameter, trimmed and in lower case. */
  ghost predicate Asks(w: Words, parameter: Option<string>, word: string) {
    parameter.Some? &&
    exists i, j :: PieceAt(parameter.value, ',', i, j) && word == w.lower(w.trim(parameter.value[i..j]))
  }

  lemma AsksIff(w: Words, parameter: Option<string>, word: string)
    ensures word in PiecesOf(w, parameter) <==> Asks(w, parameter, word)
  {
    if parameter.Some? {
      var text := parameter.value;
      var pieces, words := SplitOn(text, ','), Pieces(w, text);
      if word in words {
        var m :| 0 <= m < |words| && words[m] == word;
        SplitMeans(text, ',', pieces[m]);
        var i, j :| PieceAt(text, ',', i, j) && text[i..j] == pieces[m];
      }
      if i, j :| PieceAt(text, ',', i, j) && word == w.lower(w.trim(text[i..j])) {
        SplitMeans(text, ',', text[i..j]);
        var m :| 0 <= m < |pieces| && pieces[m] == text[i..j];
        assert words[m] == word;
      }
    }
  }

  /** Some word asked for occurs in the text. */
  ghost predicate Meets(w: Words, parameter: Option<string>, text: string) {
    exists word :: Asks(w, parameter, word) && Occurs(word, text)
  }

  lemma MeetsIff(w: Words, parameter: Option<string>, text: string)
    ensures ContainsAny(text, PiecesOf(w, parameter)) <==> Meets(w, parameter, text)
  {
    hide PiecesOf;
    hide Contains;
    hide Occurs;
    hide Asks;
    var pieces := PiecesOf(w, parameter);
    if piece :| piece in pieces && Contains(text, piece) {
      AsksIff(w, parameter, piece);
      ContainsIff(text, piece);
      assert Asks(w, parameter, piece) && Occurs(piece, text);
    }
    if word :| Asks(w, parameter, word) && Occurs(word, text) {
      AsksIff(w, parameter, word);
      ContainsIff(text, word);
      assert word in pieces && Contains(text, word);
    }
  }

  /** The text at the path, or "" where there is none. */
  ghost predicate TextAt(doc: Json, path: string, text: string) {
    Pointer(doc, path) == Some(Str(text)) ||
    (text == "" && forall other :: Pointer(doc, path) != Some(Str(other)))
  }

  lemma TextIs(doc: Json, path: string, text: string)
    requires TextAt(doc, path, text)
    ensures Text(Pointer(doc, path)) == text
  {
    hide Pointer;
  }

  lemma NameIs(w: Words, doc: Json, text: string)
    requires TextAt(doc, "/descriptor/name", text)
    ensures Name(w, doc) == w.lower(text)
  {
    hide Pointer;
    TextIs(doc, "/descriptor/name", text);
    assert "/" + "descriptor" + "/name" == "/descriptor/name";
    if doc.Obj? {
      PointerIntoObject(doc.fields, "descriptor", "/name");
      if "descriptor" in doc.fields {
        NameOfDescriptor(doc.fields["descriptor"]);
      }
    } else {
      NoNamedMember(doc);
    }
  }

  lemma NameOfDescriptor(descriptor: Json)
    ensures Text(Get(descriptor, "name")) == Text(Pointer(descriptor, "/name"))
  {
    assert "/" + "name" == "/name";
    match descriptor {
      case Obj(fields) =>
        PlainPointer(descriptor, "name");
      case Arr(elems) =>
        assert "/name"[1..] == "name";
        SplitPlain("name");
        UnescapePlain("name");
        assert ArrayIndex("name") == None;
      case _ =>
    }
  }

  lemma NoNamedMember(doc: Json)
    requires !doc.Obj?
    ensures Pointer(doc, "/descriptor/name") == None
  {
    assert "/" + "descriptor" + "/name" == "/descriptor/name";
    PointerTokens(doc, "descriptor", "/name");
    UnescapePlain("descriptor");
    assert ArrayIndex("descriptor") == None;
    hide Split;
  }

  // ------------------------------------------------------------------ the filters

  /** The provider filter is one text, not a list. */
  lemma KeepProviderIff(w: Words, p: Parameters, provider: Json, name: string)
    requires TextAt(provider, "/descriptor/name", name)
    ensures KeepProvider(w, Parse(w, p), provider) <==>
      (p.provider.Some? ==> Occurs(w.lower(p.provider.value), w.lower(name)))
  {
    NameIs(w, provider, name);
    if p.provider.Some? {
      ContainsIff(w.lower(name), w.lower(p.provider.value));
    }
    hide Occurs;
    hide Contains;
    hide Name;
    hide TextAt;
  }

  /** A piece between the commas of the item's name holds a role asked for. */
  ghost predicate NamesRole(w: Words, roles: Option<string>, name: string) {
    exists i, j :: PieceAt(name, ',', i, j) && Meets(w, roles, w.trim(name[i..j]))
  }

  lemma RoleIff(w: Words, p: Parameters, item: Json, name: string)
    requires TextAt(item, "/descriptor/name", name)
    ensures RoleMatches(w, Parse(w, p), item) <==> NamesRole(w, p.role, w.lower(name))
  {
    NameIs(w, item, name);
    hide TextAt;
    hide Name;
    RoleInPieces(w, p.role, w.lower(name));
    hide NamesRole;
    hide PiecesOf;
    hide Contains;
  }

  lemma RoleInPieces(w: Words, roles: Option<string>, name: string)
    ensures (exists role, wanted ::
      role in Map(SplitOn(name, ','), w.trim) && wanted in PiecesOf(w, roles) && Contains(role, wanted)) <==>
      NamesRole(w, roles, name)
  {
    hide PiecesOf;
    hide Contains;
    hide Meets;
    var pieces, trimmed := SplitOn(name, ','), Map(SplitOn(name, ','), w.trim);
    if role, wanted :| role in trimmed && wanted in PiecesOf(w, roles) && Contains(role, wanted) {
      var m :| 0 <= m < |trimmed| && trimmed[m] == role;
      SplitMeans(name, ',', pieces[m]);
      var i, j :| PieceAt(name, ',', i, j) && name[i..j] == pieces[m];
      MeetsIff(w, roles, role);
      assert ContainsAny(role, PiecesOf(w, roles));
    }
    if i, j :| PieceAt(name, ',', i, j) && Meets(w, roles, w.trim(name[i..j])) {
      SplitMeans(name, ',', name[i..j]);
      var m :| 0 <= m < |pieces| && pieces[m] == name[i..j];
      MeetsIff(w, roles, trimmed[m]);
      var wanted :| wanted in PiecesOf(w, roles) && Contains(trimmed[m], wanted);
      assert trimmed[m] in trimmed;
    }
  }

  /** The word occurs in a text of the item, in lower case. */
  ghost predicate InText(w: Words, item: Json, path: string, word: string) {
    exists text :: Pointer(item, path) == Some(Str(text)) && Occurs(word, w.lower(text))
  }

  /** The word occurs in the text form of a part of the item, in lower case. */
  ghost predicate InPart(w: Words, part: Option<Json>, word: string) {
    part.Some? && Occurs(word, w.lower(w.show(part.value)))
  }

  /** The places a query word is looked for. */
  ghost predicate Found(w: Words, provider: string, item: Json, word: string) {
    Occurs(word, w.lower(w.lower(provider))) ||
    InPart(w, if item.Obj? && "locations" in item.fields then Some(item.fields["locations"]) else None, word) ||
    (exists path :: path in {"/tags/jobProviderLocation", "/tags/basicInfo/jobProviderName"} &&
                    InPart(w, Pointer(item, path), word)) ||
    (exists path :: path in {"/descriptor/name", "/tags/industry", "/tags/role", "/tags/jobDetails/title"} &&
                    InText(w, item, path, word))
  }

  lemma InTextIff(w: Words, item: Json, path: string, word: string)
    ensures TextMatches(w, Pointer(item, path), word) <==> InText(w, item, path, word)
  {
    hide Pointer;
    hide Occurs;
    var v := AsStr(Pointer(item, path));
    if v.Some? {
      ContainsIff(w.lower(v.value), word);
    }
  }

  lemma InPartIff(w: Words, part: Option<Json>, word: string)
    ensures DocumentMatches(w, part, word) <==> InPart(w, part, word)
  {
    hide Occurs;
    if part.Some? {
      ContainsIff(w.lower(w.show(part.value)), word);
    }
  }

  lemma FoundIff(w: Words, provider: string, item: Json, word: string)
    ensures WordMatches(w, w.lower(provider), item, word) <==> Found(w, provider, item, word)
  {
    ContainsIff(w.lower(w.lower(provider)), word);
    InPartIff(w, Get(item, "locations"), word);
    InPartIff(w, Pointer(item, "/tags/jobProviderLocation"), word);
    InPartIff(w, Pointer(item, "/tags/basicInfo/jobProviderName"), word);
    InTextIff(w, item, "/descriptor/name", word);
    InTextIff(w, item, "/tags/industry", word);
    InTextIff(w, item, "/tags/role", word);
    InTextIff(w, item, "/tags/jobDetails/title", word);
    hide Pointer;
    hide Occurs;
    hide Contains;
    hide InPart;
    hide DocumentMatches;
    hide InText;
    hide TextMatches;
  }

  /** A word of the query, empty ones aside, is found in one of the places. */
  ghost predicate Answers(w: Words, query: string, provider: string, item: Json) {
    exists word :: Asks(w, Some(query), word) && word != "" && Found(w, provider, item, word)
  }

  lemma QueryIff(w: Words, p: Parameters, provider: Json, item: Json, providerName: string)
    requires TextAt(provider, "/descriptor/name", providerName) && p.query.Some?
    ensures MatchesQuery(w, Name(w, provider), item, w.lower(p.query.value)) <==>
      Answers(w, w.lower(p.query.value), providerName, item)
  {
    NameIs(w, provider, providerName);
    hide TextAt;
    hide Name;
    hide Pieces;
    hide Asks;
    hide WordMatches;
    hide Found;
    var query := w.lower(p.query.value);
    forall word ensures word in Pieces(w, query) <==> Asks(w, Some(query), word) {
      AsksIff(w, Some(query), word);
    }
    forall word ensures WordMatches(w, w.lower(providerName), item, word) <==> Found(w, providerName, item, word) {
      FoundIff(w, providerName, item, word);
    }
  }

  /**
   * An item is kept if and only if its name holds a word of the primary filter, neither its role
   * nor its industry a word of the exclusions, a piece of its name a role asked for, and some place
   * a word of the query; each where that parameter is given.
   */
  lemma KeepItemIff(w: Words, p: Parameters, provider: Json, item: Json, name: string, role: string,
                    industry: string, providerName: string)
    requires TextAt(item, "/descriptor/name", name) && TextAt(item, "/tags/role", role)
    requires TextAt(item, "/tags/industry", industry) && TextAt(provider, "/descriptor/name", providerName)
    ensures KeepItem(w, Parse(w, p), provider, item) <==>
      (p.primary.Some? ==> Meets(w, p.primary, w.lower(name))) &&
      !Meets(w, p.exclude, w.lower(role)) && !Meets(w, p.exclude, w.lower(industry)) &&
      (p.role.Some? ==> NamesRole(w, p.role, w.lower(name))) &&
      (p.query.Some? ==> Answers(w, w.lower(p.query.value), providerName, item))
  {
    hide PiecesOf;
    hide Meets;
    hide NamesRole;
    hide Answers;
    hide MatchesQuery;
    hide RoleMatches;
    hide ContainsAny;
    hide Name;
    hide TextAt;
    hide Pointer;
    GivenIff(w, p.primary);
    GivenIff(w, p.role);
    NameIs(w, item, name);
    TextIs(item, "/tags/role", role);
    TextIs(item, "/tags/industry", industry);
    MeetsIff(w, p.primary, w.lower(name));
    MeetsIff(w, p.exclude, w.lower(role));
    MeetsIff(w, p.exclude, w.lower(industry));
    RoleIff(w, p, item, name);
    if p.query.Some? {
      QueryIff(w, p, provider, item, providerName);
    }
  }

  lemma GivenIff(w: Words, parameter: Option<string>)
    ensures PiecesOf(w, parameter) != [] <==> parameter.Some?
  {}
}
