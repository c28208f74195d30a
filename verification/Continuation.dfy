/**
  The OAuth query carried through the account pages (pages.ts): wrapped into one parameter of a
  continuation URL, and read back from whatever query string the page is opened with. Query strings
  are parsed, serialized and set as section 5 of the WHATWG URL Standard says.
 */
module Continuation {
  import opened PercentEncoding

  type Pair = (string, string)

  const WRAPPER := "keepmealive_oauth"
  const CLIENT := "client_id"
  const REDIRECT := "redirect_uri"

  // ----- the URL Standard -----

  function WithoutMark(s: string): string {
    if s != "" && s[0] == '?' then s[1..] else s
  }

  function ReadPiece(piece: string): Pair {
    var i := EqualsAt(piece);
    (FormDecode(piece[..i]), if i < |piece| then FormDecode(piece[i + 1..]) else "")
  }

  function Pairs(pieces: seq<string>): seq<Pair> {
    if pieces == [] then []
    else (if pieces[0] == "" then [] else [ReadPiece(pieces[0])]) + Pairs(pieces[1..])
  }

  /** The application/x-www-form-urlencoded parser. */
  function ParseQuery(raw: string): seq<Pair> {
    Pairs(Split(raw, '&'))
  }

  /** The application/x-www-form-urlencoded serializer's characters. */
  function FormPrinter(): Printer {
    EscapingPlus(KeptInForm)
  }

  predicate KeptInForm(c: char) {
    Alphanumeric(c) || c in {'*', '-', '.', '_'}
  }

  function SerializedPair(pair: Pair): string {
    Print(FormPrinter(), pair.0) + "=" + Print(FormPrinter(), pair.1)
  }

  function SerializedPieces(pairs: seq<Pair>): seq<string> {
    if pairs == [] then [] else [SerializedPair(pairs[0])] + SerializedPieces(pairs[1..])
  }

  function Serialize(pairs: seq<Pair>): string {
    Join(SerializedPieces(pairs), '&')
  }

  /** The special-query percent-encode set, on what is left once the parser has dropped tabs and line breaks. */
  function QueryPrinter(): Printer {
    c => if c in {'\t', '\n', '\r'} then ""
         else if c as int <= 0x20 || c as int > 0x7E || c in {'"', '#', '<', '>', '\''} then Octets(EncodeChar(c))
         else [c]
  }

  /** The `search` of a URL after it has been set to `value`. */
  function SetSearch(value: string): string {
    var query := Print(QueryPrinter(), WithoutMark(value));
    if query == "" then "" else "?" + query
  }

  /** What `encodeURIComponent` keeps. */
  predicate KeptInComponent(c: char) {
    Alphanumeric(c) || c in {'-', '_', '.', '!', '~', '*', '\'', '(', ')'}
  }

  function EncodeUriComponent(s: string): string {
    Print(Escaping(KeptInComponent), s)
  }

  /** A search never holds white space, a control character, anything beyond ASCII, a quote, or what could end it. */
  lemma SearchIsPlain(value: string, c: char)
    requires c as int <= 0x20 || c as int >= 0x7F || c in {'"', '#', '<', '>', '\''}
    ensures c !in SetSearch(value)
  {
    forall d ensures c !in QueryPrinter()(d) {
      QueryPrinterAvoids(c, d);
    }
    PrintAvoids(QueryPrinter(), WithoutMark(value), c);
  }

  lemma QueryPrinterAvoids(c: char, d: char)
    requires c as int <= 0x20 || c as int >= 0x7F || c in {'"', '#', '<', '>', '\''}
    ensures c !in QueryPrinter()(d)
  {
    var octets := Octets(EncodeChar(d));
    OctetsArePlain(EncodeChar(d));
    forall i | 0 <= i < |octets| ensures octets[i] != c {
      assert octets[i] in "0123456789ABCDEF%";
    }
  }

  // ----- the two functions -----

  function Values(pairs: seq<Pair>, name: string): seq<string> {
    if pairs == [] then []
    else (if pairs[0].0 == name then [pairs[0].1] else []) + Values(pairs[1..], name)
  }

  predicate Has(pairs: seq<Pair>, name: string) {
    Values(pairs, name) != []
  }

  datatype Reading = Query(text: string) | Ambiguous

  /** `readOAuthQuery`. `new URLSearchParams(raw)` drops one more question mark. */
  function ReadOAuthQuery(search: string): Reading {
    var raw := WithoutMark(search);
    var outer := ParseQuery(WithoutMark(raw));
    var wrapped := Values(outer, WRAPPER);
    if |wrapped| > 1 || (|wrapped| == 1 && (Has(outer, CLIENT) || Has(outer, REDIRECT))) then Ambiguous
    else if |wrapped| == 1 then Query(wrapped[0])
    else Query(if Has(outer, CLIENT) && Has(outer, REDIRECT) then raw else "")
  }

  /** The `search` of `authContinuationUrl(path, origin, query)`, for a path without a query of its own. */
  function ContinuationSearch(query: string): string {
    if query != "" then SetSearch(WRAPPER + "=" + EncodeUriComponent(query)) else ""
  }

  /** Without a query the destination gets no search, and what is read there is the empty query. */
  lemma NoQueryNoSearch()
    ensures ContinuationSearch("") == "" && ReadOAuthQuery("") == Query("")
  {
  }

  // ----- parsing what was printed -----

  lemma {:induction false} PairsConcat(a: seq<string>, b: seq<string>)
    ensures Pairs(a + b) == Pairs(a) + Pairs(b)
  {
    if a == [] {
      assert a + b == b;
    } else {
      assert (a + b)[1..] == a[1..] + b;
      PairsConcat(a[1..], b);
    }
  }

  lemma ParseConcat(a: string, b: string)
    ensures ParseQuery(a + "&" + b) == ParseQuery(a) + ParseQuery(b)
  {
    SplitConcat(a, b, '&');
    PairsConcat(Split(a, '&'), Split(b, '&'));
  }

  lemma {:induction false} ValuesConcat(a: seq<Pair>, b: seq<Pair>, name: string)
    ensures Values(a + b, name) == Values(a, name) + Values(b, name)
  {
    if a == [] {
      assert a + b == b;
    } else {
      assert (a + b)[1..] == a[1..] + b;
      ValuesConcat(a[1..], b, name);
    }
  }

  /** A printed "name=value" is read back as that pair, when neither printer writes '&' and the first no '='. */
  lemma PieceReadsBack(p: Printer, name: string, value: string)
    requires Faithful(p) && forall c :: '=' !in p(c)
    ensures ReadPiece(Print(p, name) + "=" + Print(p, value)) == (name, value)
  {
    PrintAvoids(p, name, '=');
    var piece := Print(p, name) + "=" + Print(p, value);
    EqualsAfter(Print(p, name), Print(p, value));
    assert piece[..|Print(p, name)|] == Print(p, name);
    assert piece[|Print(p, name)| + 1..] == Print(p, value);
    FaithfulDecodes(p, name);
    FaithfulDecodes(p, value);
  }

  lemma FormPrinterAvoids()
    ensures forall c :: '=' !in FormPrinter()(c) && '&' !in FormPrinter()(c) && '?' !in FormPrinter()(c)
  {
    EscapingAvoids(KeptInForm, '=');
    EscapingAvoids(KeptInForm, '&');
    EscapingAvoids(KeptInForm, '?');
  }

  lemma FormPrinterIsFaithful()
    ensures Faithful(FormPrinter())
  {
    EscapingIsFaithful(KeptInForm);
    var p := FormPrinter();
    forall c, rest ensures PercentDecode(PlusToSpace(p(c)) + rest) == EncodeChar(c) + PercentDecode(rest) {
      if c == ' ' {
        assert PlusToSpace("+") == " ";
        assert (" " + rest)[1..] == rest;
      } else {
        assert p(c) == Escaping(KeptInForm)(c);
      }
    }
  }

  lemma SerializedPairReadsBack(pair: Pair)
    ensures '&' !in SerializedPair(pair) && SerializedPair(pair) != "" && ReadPiece(SerializedPair(pair)) == pair
  {
    FormPrinterIsFaithful();
    FormPrinterAvoids();
    PrintAvoids(FormPrinter(), pair.0, '&');
    PrintAvoids(FormPrinter(), pair.1, '&');
    PieceReadsBack(FormPrinter(), pair.0, pair.1);
  }

  lemma {:induction false} SerializedPiecesAreClean(pairs: seq<Pair>)
    ensures |SerializedPieces(pairs)| == |pairs|
    ensures forall i :: 0 <= i < |pairs| ==> '&' !in SerializedPieces(pairs)[i]
  {
    if pairs != [] {
      SerializedPiecesAreClean(pairs[1..]);
      SerializedPairReadsBack(pairs[0]);
    }
  }

  lemma {:induction false} SerializedPiecesReadBack(pairs: seq<Pair>)
    ensures Pairs(SerializedPieces(pairs)) == pairs
  {
    if pairs != [] {
      var first, rest := SerializedPair(pairs[0]), SerializedPieces(pairs[1..]);
      SerializedPiecesReadBack(pairs[1..]);
      SerializedPairReadsBack(pairs[0]);
      assert ([first] + rest)[1..] == rest;
      assert pairs == [pairs[0]] + pairs[1..];
    }
  }

  /** Parsing undoes serializing, for every list of pairs. */
  lemma SerializeReadsBack(pairs: seq<Pair>)
    ensures ParseQuery(Serialize(pairs)) == pairs
  {
    SerializedPiecesAreClean(pairs);
    SerializedPiecesReadBack(pairs);
    if pairs != [] {
      SplitJoin(SerializedPieces(pairs), '&');
    } else {
      assert Pairs([""]) == [];
    }
  }

  lemma {:induction false} PrintConcat(p: Printer, a: string, b: string)
    ensures Print(p, a + b) == Print(p, a) + Print(p, b)
  {
    if a == "" {
      assert a + b == b;
    } else {
      assert (a + b)[1..] == a[1..] + b;
      PrintConcat(p, a[1..], b);
    }
  }

  /** What a component printed into a query finally keeps: the query setter escapes the apostrophe too. */
  predicate KeptInQuery(c: char) {
    KeptInComponent(c) && c != '\''
  }

  lemma {:induction false} QueryPrinterKeeps(s: string)
    requires forall i :: 0 <= i < |s| ==> (Plain(s[i]) && s[i] !in {'"', '<', '>', '\''}) || s[i] in {'%', '='}
    ensures Print(QueryPrinter(), s) == s
  {
    if s != "" {
      QueryPrinterKeeps(s[1..]);
      assert s == [s[0]] + s[1..];
    }
  }

  lemma KeptCharacterInQuery(c: char)
    requires KeptInComponent(c)
    ensures QueryPrinter()(c) == Escaping(KeptInQuery)(c)
  {
    if c == '\'' {
      assert !KeptInQuery(c);
    } else {
      assert KeptInQuery(c);
    }
  }

  lemma PrintOne(p: Printer, c: char)
    ensures Print(p, [c]) == p(c)
  {
    assert [c][1..] == "";
    assert p(c) + "" == p(c);
  }

  lemma EscapedInQuery(c: char)
    ensures Print(QueryPrinter(), Octets(EncodeChar(c))) == Octets(EncodeChar(c))
  {
    OctetsArePlain(EncodeChar(c));
    QueryPrinterKeeps(Octets(EncodeChar(c)));
  }

  lemma CharacterInQuery(c: char)
    ensures Print(QueryPrinter(), Escaping(KeptInComponent)(c)) == Escaping(KeptInQuery)(c)
  {
    if KeptInComponent(c) {
      assert Escaping(KeptInComponent)(c) == [c];
      PrintOne(QueryPrinter(), c);
      KeptCharacterInQuery(c);
    } else {
      assert !KeptInQuery(c);
      EscapedInQuery(c);
    }
  }

  lemma {:induction false} ComponentInQuery(s: string)
    ensures Print(QueryPrinter(), EncodeUriComponent(s)) == Print(Escaping(KeptInQuery), s)
  {
    if s != "" {
      PrintConcat(QueryPrinter(), Escaping(KeptInComponent)(s[0]), EncodeUriComponent(s[1..]));
      CharacterInQuery(s[0]);
      ComponentInQuery(s[1..]);
    }
  }

  /** A parameter as it stands in the continuation URL. */
  function InUrl(name: string, value: string): string {
    name + "=" + Print(Escaping(KeptInQuery), value)
  }

  predicate Nameable(name: string) {
    name != "" && forall i :: 0 <= i < |name| ==> KeptInQuery(name[i])
  }

  lemma PrintedParameter(name: string, value: string)
    requires Nameable(name)
    ensures Print(QueryPrinter(), name + "=" + EncodeUriComponent(value)) == InUrl(name, value)
  {
    NameStays(name);
    PrintConcat(QueryPrinter(), name + "=", EncodeUriComponent(value));
    ComponentInQuery(value);
  }

  lemma NameStays(name: string)
    requires Nameable(name)
    ensures Print(QueryPrinter(), name + "=") == name + "="
  {
    QueryPrinterKeeps(name + "=");
  }

  lemma SearchOfOne(name: string, value: string)
    requires Nameable(name)
    ensures SetSearch(name + "=" + EncodeUriComponent(value)) == "?" + InUrl(name, value)
  {
    assert (name + "=" + EncodeUriComponent(value))[0] == name[0] != '?';
    PrintedParameter(name, value);
  }

  lemma InUrlReadsBack(name: string, value: string)
    requires Nameable(name)
    ensures ParseQuery(InUrl(name, value)) == [(name, value)]
  {
    EscapingIsFaithful(KeptInQuery);
    EscapingAvoids(KeptInQuery, '=');
    EscapingAvoids(KeptInQuery, '&');
    PlainName(name);
    PrintAvoids(Escaping(KeptInQuery), value, '&');
    PieceReadsBack(Escaping(KeptInQuery), name, value);
    SplitNone(InUrl(name, value), '&');
    assert Pairs([InUrl(name, value)]) == [ReadPiece(InUrl(name, value))] + Pairs([]);
  }

  lemma {:induction false} PlainName(s: string)
    requires forall i :: 0 <= i < |s| ==> KeptInQuery(s[i])
    ensures Print(Escaping(KeptInQuery), s) == s
  {
    if s != "" {
      PlainName(s[1..]);
      assert s == [s[0]] + s[1..];
    }
  }

  // ----- round trips -----

  /** What can happen to a continuation URL on its way: text appended, or parameters added by a form serializer. */
  datatype Detour = Appended(extra: string) | Reserialized(more: seq<Pair>)

  predicate Unreserved(pairs: seq<Pair>) {
    forall i :: 0 <= i < |pairs| ==> pairs[i].0 != WRAPPER && pairs[i].0 != CLIENT && pairs[i].0 != REDIRECT
  }

  predicate Harmless(detour: Detour) {
    match detour
    case Appended(extra) => Unreserved(ParseQuery(extra)) && Unreserved(ParseQuery(WithoutMark(extra)))
    case Reserialized(more) => Unreserved(more)
  }

  function Detoured(search: string, detour: Detour): string {
    match detour
    case Appended(extra) =>
      if extra == "" then search else if search == "" then "?" + extra else search + "&" + extra
    case Reserialized(more) =>
      var pairs := ParseQuery(WithoutMark(search)) + more;
      if pairs == [] then "" else "?" + Serialize(pairs)
  }

  function AllDetoured(search: string, detours: seq<Detour>): string
    decreases |detours|
  {
    if detours == [] then search else AllDetoured(Detoured(search, detours[0]), detours[1..])
  }

  /** The pairs carry exactly the wrapped query, and nothing it could be confused with. */
  predicate Carries(pairs: seq<Pair>, query: string) {
    && Values(pairs, WRAPPER) == (if query == "" then [] else [query])
    && !Has(pairs, CLIENT) && !Has(pairs, REDIRECT)
  }

  ghost predicate SearchCarries(search: string, query: string) {
    && (search == "" || (search[0] == '?' && |search| > 1))
    && Carries(ParseQuery(WithoutMark(search)), query)
    && Carries(ParseQuery(WithoutMark(WithoutMark(search))), query)
  }

  lemma {:induction false} UnreservedValues(pairs: seq<Pair>)
    requires Unreserved(pairs)
    ensures Values(pairs, WRAPPER) == [] && Values(pairs, CLIENT) == [] && Values(pairs, REDIRECT) == []
  {
    if pairs != [] {
      UnreservedValues(pairs[1..]);
    }
  }

  lemma CarriesMore(pairs: seq<Pair>, more: seq<Pair>, query: string)
    requires Carries(pairs, query) && Unreserved(more)
    ensures Carries(pairs + more, query)
  {
    UnreservedValues(more);
    ValuesConcat(pairs, more, WRAPPER);
    ValuesConcat(pairs, more, CLIENT);
    ValuesConcat(pairs, more, REDIRECT);
  }

  lemma {:induction false} SerializedHasNoMark(pairs: seq<Pair>)
    requires pairs != []
    ensures Serialize(pairs) != "" && Serialize(pairs)[0] != '?'
  {
    FormPrinterAvoids();
    PrintAvoids(FormPrinter(), pairs[0].0, '?');
    var first := SerializedPair(pairs[0]);
    assert first[0] != '?';
    assert Serialize(pairs)[0] == first[0];
  }

  lemma MarkInFront(a: string, middle: string, rest: string)
    requires middle != "" && middle[0] != '?'
    ensures WithoutMark(a + middle + rest) == WithoutMark(a) + middle + rest
  {
    if a == "" {
      assert a + middle + rest == middle + rest;
      assert WithoutMark(a) + middle + rest == middle + rest;
    }
  }

  lemma MarkGone(rest: string)
    ensures WithoutMark("?" + rest) == rest
  {
  }

  lemma ParseWithMark(a: string, b: string)
    ensures ParseQuery(WithoutMark(a + "&" + b)) == ParseQuery(WithoutMark(a)) + ParseQuery(b)
  {
    MarkInFront(a, "&", b);
    ParseConcat(WithoutMark(a), b);
  }

  lemma AppendedCarries(search: string, extra: string, query: string)
    requires SearchCarries(search, query) && Harmless(Appended(extra))
    ensures SearchCarries(Detoured(search, Appended(extra)), query)
  {
    var text := WithoutMark(search);
    if extra == "" {
    } else if search == "" {
      assert WithoutMark("?" + extra) == extra;
      EmptyCarries(ParseQuery(extra), query);
      EmptyCarries(ParseQuery(WithoutMark(extra)), query);
    } else {
      ParseWithMark(search, extra);
      ParseWithMark(text, extra);
      MarkInFront(search, "&", extra);
      CarriesMore(ParseQuery(text), ParseQuery(extra), query);
      CarriesMore(ParseQuery(WithoutMark(text)), ParseQuery(extra), query);
    }
  }

  lemma EmptyCarries(more: seq<Pair>, query: string)
    requires Carries(ParseQuery(""), query) && Unreserved(more)
    ensures Carries(more, query)
  {
    assert ParseQuery("") + more == more;
    CarriesMore(ParseQuery(""), more, query);
  }

  lemma ReserializedCarries(search: string, more: seq<Pair>, query: string)
    requires SearchCarries(search, query) && Unreserved(more)
    ensures SearchCarries(Detoured(search, Reserialized(more)), query)
  {
    var pairs := ParseQuery(WithoutMark(search)) + more;
    CarriesMore(ParseQuery(WithoutMark(search)), more, query);
    SerializeReadsBack(pairs);
    if pairs != [] {
      SerializedHasNoMark(pairs);
      assert WithoutMark("?" + Serialize(pairs)) == Serialize(pairs);
    }
  }

  lemma DetourCarries(search: string, detour: Detour, query: string)
    requires SearchCarries(search, query) && Harmless(detour)
    ensures SearchCarries(Detoured(search, detour), query)
  {
    match detour
    case Appended(extra) => AppendedCarries(search, extra, query);
    case Reserialized(more) => ReserializedCarries(search, more, query);
  }

  lemma {:induction false} DetoursCarry(search: string, detours: seq<Detour>, query: string)
    requires SearchCarries(search, query) && forall i :: 0 <= i < |detours| ==> Harmless(detours[i])
    ensures SearchCarries(AllDetoured(search, detours), query)
    decreases |detours|
  {
    if detours != [] {
      DetourCarries(search, detours[0], query);
      DetoursCarry(Detoured(search, detours[0]), detours[1..], query);
    }
  }

  lemma OneValue(name: string, value: string, other: string)
    ensures Values([(name, value)], other) == if name == other then [value] else []
  {
    assert [(name, value)][1..] == [];
  }

  lemma CarriesOne(query: string)
    requires query != ""
    ensures Carries([(WRAPPER, query)], query)
  {
    NamesDiffer();
    OneValue(WRAPPER, query, WRAPPER);
    OneValue(WRAPPER, query, CLIENT);
    OneValue(WRAPPER, query, REDIRECT);
  }

  lemma NamedCarries(name: string, query: string)
    requires Nameable(name) && name[0] != '?' && Carries([(name, query)], query)
    ensures SearchCarries("?" + InUrl(name, query), query)
  {
    var text := InUrl(name, query);
    InUrlReadsBack(name, query);
    assert text[0] == name[0];
    assert WithoutMark("?" + text) == text;
  }

  lemma ContinuationCarries(query: string)
    ensures SearchCarries(ContinuationSearch(query), query)
  {
    if query == "" {
      assert Pairs([""]) == [];
    } else {
      CarriesOne(query);
      SearchOfOne(WRAPPER, query);
      NamedCarries(WRAPPER, query);
    }
  }

  /** From page to page: each opens with the continuation of the one before, after its own detours. */
  function Travel(query: string, pages: seq<seq<Detour>>): Reading
    decreases |pages|
  {
    if pages == [] then Query(query)
    else match ReadOAuthQuery(AllDetoured(ContinuationSearch(query), pages[0]))
      case Query(next) => Travel(next, pages[1..])
      case Ambiguous => Ambiguous
  }

  /**
    For every query and any number of pages, with other parameters added on the way, the query that is
    recovered is exactly the one that set out.
   */
  lemma {:induction false} QuerySurvivesTravel(query: string, pages: seq<seq<Detour>>)
    requires forall p, i :: 0 <= p < |pages| && 0 <= i < |pages[p]| ==> Harmless(pages[p][i])
    ensures Travel(query, pages) == Query(query)
    decreases |pages|
  {
    if pages != [] {
      ContinuationCarries(query);
      DetoursCarry(ContinuationSearch(query), pages[0], query);
      forall p, i | 0 <= p < |pages[1..]| && 0 <= i < |pages[1..][p]| ensures Harmless(pages[1..][p][i]) {
        assert Harmless(pages[p + 1][i]);
      }
      QuerySurvivesTravel(query, pages[1..]);
    }
  }

  /** A journey that starts at a page opened with `search`. */
  function Journey(search: string, pages: seq<seq<Detour>>): Reading {
    match ReadOAuthQuery(search)
    case Query(query) => Travel(query, pages)
    case Ambiguous => Ambiguous
  }

  /**
    The signed query of the first page, which names client and redirect itself and no wrapper, comes back
    byte for byte from any journey.
   */
  lemma SignedQuerySurvives(raw: string, pages: seq<seq<Detour>>)
    requires Values(ParseQuery(WithoutMark(raw)), WRAPPER) == []
    requires Has(ParseQuery(WithoutMark(raw)), CLIENT) && Has(ParseQuery(WithoutMark(raw)), REDIRECT)
    requires forall p, i :: 0 <= p < |pages| && 0 <= i < |pages[p]| ==> Harmless(pages[p][i])
    ensures Journey("?" + raw, pages) == Query(raw)
  {
    MarkGone(raw);
    QuerySurvivesTravel(raw, pages);
  }

  // ----- rejection -----

  /** The i-th piece is a parameter whose name decodes to `name`, however it is encoded. */
  predicate NamedAt(pieces: seq<string>, i: nat, name: string) {
    i < |pieces| && pieces[i] != "" && ReadPiece(pieces[i]).0 == name
  }

  /** Two wrappers, or a wrapper and a client_id or redirect_uri, anywhere among the pieces. */
  predicate Conflict(pieces: seq<string>, i: nat, j: nat) {
    i != j && NamedAt(pieces, i, WRAPPER)
    && (NamedAt(pieces, j, WRAPPER) || NamedAt(pieces, j, CLIENT) || NamedAt(pieces, j, REDIRECT))
  }

  lemma ValuesFirst(pieces: seq<string>, name: string)
    requires pieces != []
    ensures Values(Pairs(pieces), name) ==
              (if NamedAt(pieces, 0, name) then [ReadPiece(pieces[0]).1] else []) + Values(Pairs(pieces[1..]), name)
  {
    if pieces[0] != "" {
      ValuesConcat([ReadPiece(pieces[0])], Pairs(pieces[1..]), name);
      OneValue(ReadPiece(pieces[0]).0, ReadPiece(pieces[0]).1, name);
    } else {
      assert Pairs(pieces) == Pairs(pieces[1..]);
    }
  }

  /** The pieces of a query from the i-th on contribute what is left of its values. */
  lemma ValuesFrom(pieces: seq<string>, i: nat, name: string)
    requires i <= |pieces|
    ensures Values(Pairs(pieces), name) == Values(Pairs(pieces[..i]), name) + Values(Pairs(pieces[i..]), name)
  {
    assert pieces == pieces[..i] + pieces[i..];
    PairsConcat(pieces[..i], pieces[i..]);
    ValuesConcat(Pairs(pieces[..i]), Pairs(pieces[i..]), name);
  }

  /** A piece with this name makes the query have it. */
  lemma NamedPiece(pieces: seq<string>, i: nat, name: string)
    requires NamedAt(pieces, i, name)
    ensures Has(Pairs(pieces), name)
    ensures |Values(Pairs(pieces), name)| >= 1 + |Values(Pairs(pieces[i + 1..]), name)|
  {
    var from := pieces[i..];
    ValuesFrom(pieces, i, name);
    assert from[0] == pieces[i] && from[1..] == pieces[i + 1..];
    ValuesFirst(from, name);
  }

  /** Two pieces with the same name give it two values. */
  lemma NamedTwice(pieces: seq<string>, i: nat, j: nat, name: string)
    requires i < j && NamedAt(pieces, i, name) && NamedAt(pieces, j, name)
    ensures |Values(Pairs(pieces), name)| > 1
  {
    var rest := pieces[i + 1..];
    assert rest[j - (i + 1)] == pieces[j];
    NamedPiece(pieces, i, name);
    NamedIsHad(rest, j - (i + 1), name);
  }

  lemma NamedIsHad(pieces: seq<string>, i: nat, name: string)
    requires NamedAt(pieces, i, name)
    ensures Has(Pairs(pieces), name)
  {
    NamedPiece(pieces, i, name);
  }

  /** A name that a query has is the name of a piece. */
  lemma {:induction false} PieceOf(pieces: seq<string>, name: string) returns (i: nat)
    requires Has(Pairs(pieces), name)
    ensures NamedAt(pieces, i, name)
    ensures Values(Pairs(pieces), name)[1..] == Values(Pairs(pieces[i + 1..]), name)
    decreases |pieces|
  {
    ValuesFirst(pieces, name);
    if NamedAt(pieces, 0, name) { return 0; }
    var rest := pieces[1..];
    assert Values(Pairs(pieces), name) == Values(Pairs(rest), name);
    var k := PieceOf(rest, name);
    assert rest[k + 1..] == pieces[k + 2..];
    return k + 1;
  }

  ghost predicate HasConflict(pieces: seq<string>) {
    exists i: nat, j: nat :: Conflict(pieces, i, j)
  }

  lemma ConflictIsRejected(raw: string, pieces: seq<string>, i: nat, j: nat)
    requires pieces == Split(WithoutMark(raw), '&') && Conflict(pieces, i, j)
    ensures ReadOAuthQuery("?" + raw) == Ambiguous
  {
    MarkGone(raw);
    NamedPiece(pieces, i, WRAPPER);
    NamedPiece(pieces, j, ReadPiece(pieces[j]).0);
    if NamedAt(pieces, j, WRAPPER) {
      NamedTwice(pieces, if i < j then i else j, if i < j then j else i, WRAPPER);
    }
  }

  lemma RejectedHasConflict(raw: string, pieces: seq<string>)
    requires pieces == Split(WithoutMark(raw), '&') && ReadOAuthQuery("?" + raw) == Ambiguous
    ensures HasConflict(pieces)
  {
    MarkGone(raw);
    NamesDiffer();
    var i := PieceOf(pieces, WRAPPER);
    var j;
    if |Values(Pairs(pieces), WRAPPER)| > 1 {
      j := PieceOf(pieces[i + 1..], WRAPPER);
      j := i + 1 + j;
    } else if Has(Pairs(pieces), CLIENT) {
      j := PieceOf(pieces, CLIENT);
    } else {
      j := PieceOf(pieces, REDIRECT);
    }
    assert Conflict(pieces, i, j);
  }

  lemma NamesDiffer()
    ensures WRAPPER != CLIENT && WRAPPER != REDIRECT
  {
    assert |WRAPPER| == 17 && |CLIENT| == 9 && |REDIRECT| == 12;
  }

  /**
    A query is rejected if and only if it has two wrappers, or a wrapper beside a client_id or a
    redirect_uri, wherever they stand among its pieces and however their names are encoded.
   */
  lemma RejectedExactlyOnConflict(raw: string, pieces: seq<string>)
    requires pieces == Split(WithoutMark(raw), '&')
    ensures ReadOAuthQuery("?" + raw) == Ambiguous <==> HasConflict(pieces)
  {
    if HasConflict(pieces) {
      var i: nat, j: nat :| Conflict(pieces, i, j);
      ConflictIsRejected(raw, pieces, i, j);
    } else if ReadOAuthQuery("?" + raw) == Ambiguous {
      RejectedHasConflict(raw, pieces);
    }
  }

  // ----- what is read -----

  ghost predicate Named(pieces: seq<string>, name: string) {
    exists i: nat :: NamedAt(pieces, i, name)
  }

  lemma HasExactlyWhenNamed(pieces: seq<string>, name: string)
    ensures Has(Pairs(pieces), name) <==> Named(pieces, name)
  {
    if Has(Pairs(pieces), name) {
      var i := PieceOf(pieces, name);
    }
    if Named(pieces, name) {
      var i: nat :| NamedAt(pieces, i, name);
      NamedPiece(pieces, i, name);
    }
  }

  /** The value of the first piece with a name is the first value of that name. */
  lemma OnlyValue(pieces: seq<string>, i: nat, name: string)
    requires NamedAt(pieces, i, name) && |Values(Pairs(pieces), name)| == 1
    ensures Values(Pairs(pieces), name) == [ReadPiece(pieces[i]).1]
  {
    var from := pieces[i..];
    ValuesFrom(pieces, i, name);
    assert from[0] == pieces[i] && from[1..] == pieces[i + 1..];
    ValuesFirst(from, name);
  }

  /**
    What is returned for the `search` of a page. Without a wrapper: the query itself if it names both the client
    and the redirect, and the empty one otherwise. With one: an error, or the text in the wrapper and nothing else.
   */
  lemma ReadsExactly(search: string, pieces: seq<string>)
    requires pieces == Split(WithoutMark(WithoutMark(search)), '&')
    ensures !Named(pieces, "keepmealive_oauth") ==>
              ReadOAuthQuery(search) ==
              Query(if Named(pieces, "client_id") && Named(pieces, "redirect_uri") then WithoutMark(search) else "")
    ensures forall i: nat :: NamedAt(pieces, i, "keepmealive_oauth") ==>
              ReadOAuthQuery(search) == Ambiguous || ReadOAuthQuery(search) == Query(ReadPiece(pieces[i]).1)
  {
    HasExactlyWhenNamed(pieces, WRAPPER);
    HasExactlyWhenNamed(pieces, CLIENT);
    HasExactlyWhenNamed(pieces, REDIRECT);
    forall i: nat | NamedAt(pieces, i, "keepmealive_oauth")
      ensures ReadOAuthQuery(search) == Ambiguous || ReadOAuthQuery(search) == Query(ReadPiece(pieces[i]).1)
    {
      if |Values(Pairs(pieces), WRAPPER)| == 1 {
        OnlyValue(pieces, i, WRAPPER);
      } else {
        assert Named(pieces, WRAPPER);
      }
    }
  }
}
