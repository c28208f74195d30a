/** What the desktop application reads from the query of a sign-in callback (OAuthProtocol.cs). */
module Callback {
  import opened Options
  import opened Texts
  import opened PercentEncoding

  datatype Outcome = Code(code: string) | Invalid | Unverified | Denied

  function TrimMarks(s: string): string {
    if s != "" && s[0] == '?' then TrimMarks(s[1..]) else s
  }

  /** The query dictionary after `pieces`, or nothing at a piece without '=' or a repeated name. */
  function Collect(pieces: seq<string>, query: map<string, string>): Option<map<string, string>>
    decreases |pieces|
  {
    if pieces == [] then Some(query)
    else if pieces[0] == "" then Collect(pieces[1..], query)
    else
      var i := EqualsAt(pieces[0]);
      if i == |pieces[0]| then None
      else
        var name := UnescapeDataString(pieces[0][..i]);
        var value := UnescapeDataString(PlusToSpace(pieces[0][i + 1..]));
        if name in query then None else Collect(pieces[1..], query[name := value])
  }

  function Decide(query: map<string, string>, state: string): Outcome {
    if "state" !in query || query["state"] != state then Unverified
    else if "error" in query || "code" !in query || OnlySpace(query["code"]) then Denied
    else Code(query["code"])
  }

  function CodeOf(query: string, state: string): Outcome {
    var collected := Collect(Split(TrimMarks(query), '&'), map[]);
    if collected.None? then Invalid else Decide(collected.value, state)
  }

  /** `ReadCode`, on the query of the callback URI. */
  method ReadCode(callbackQuery: string, state: string) returns (outcome: Outcome)
    ensures outcome == CodeOf(callbackQuery, state)
  {
    var query: map<string, string> := map[];
    var items := Split(TrimMarks(callbackQuery), '&');
    for n := 0 to |items|
      invariant Collect(items, map[]) == Collect(items[n..], query)
    {
      var item := items[n];
      if item == "" { continue; }
      var i := EqualsAt(item);
      if i == |item| { return Invalid; }
      var name, value := UnescapeDataString(item[..i]), UnescapeDataString(PlusToSpace(item[i + 1..]));
      if name in query { return Invalid; }
      query := query[name := value];
    }
    outcome := Decide(query, state);
  }

  // ----- what comes back from a printed query -----

  type Parameter = (string, string)

  /** How an encoder writes names and values: what it keeps, and whether it writes a space in a value as '+'. */
  datatype Encoder = Encoder(keep: char -> bool, plus: bool) {
    predicate Valid() {
      forall c :: keep(c) ==> Plain(c)
    }

    function Name(s: string): string {
      Print(Escaping(keep), s)
    }

    function Value(s: string): string {
      Print(if plus then EscapingPlus(keep) else Escaping(keep), s)
    }
  }

  function Pieces(encoder: Encoder, parameters: seq<Parameter>): seq<string> {
    if parameters == [] then []
    else [encoder.Name(parameters[0].0) + "=" + encoder.Value(parameters[0].1)] + Pieces(encoder, parameters[1..])
  }

  /** The callback query with these parameters, as `encoder` writes it. */
  function PrintQuery(encoder: Encoder, parameters: seq<Parameter>): string {
    "?" + Join(Pieces(encoder, parameters), '&')
  }

  predicate Distinct(parameters: seq<Parameter>) {
    forall i, j :: 0 <= i < j < |parameters| ==> parameters[i].0 != parameters[j].0
  }

  lemma PrintedName(encoder: Encoder, name: string)
    requires encoder.Valid()
    ensures UnescapeDataString(encoder.Name(name)) == name
    ensures '=' !in encoder.Name(name) && '&' !in encoder.Name(name) && '?' !in encoder.Name(name)
  {
    UnescapeReadsBack(encoder.keep, name);
    forall avoided | avoided in {'=', '&', '?'} ensures avoided !in encoder.Name(name) {
      EscapingAvoids(encoder.keep, avoided);
      PrintAvoids(Escaping(encoder.keep), name, avoided);
    }
  }

  lemma PrintedValue(encoder: Encoder, value: string)
    requires encoder.Valid()
    ensures UnescapeDataString(PlusToSpace(encoder.Value(value))) == value
    ensures '&' !in encoder.Value(value)
  {
    EscapingAvoids(encoder.keep, '&');
    if encoder.plus {
      PlusReadsAsSpace(encoder.keep, value);
      UnescapeReadsBack(OrSpace(encoder.keep), value);
      PrintAvoids(EscapingPlus(encoder.keep), value, '&');
    } else {
      EscapingAvoids(encoder.keep, '+');
      PrintAvoids(Escaping(encoder.keep), value, '+');
      NoPlus(encoder.Value(value));
      UnescapeReadsBack(encoder.keep, value);
      PrintAvoids(Escaping(encoder.keep), value, '&');
    }
  }

  lemma PrintedPiece(encoder: Encoder, name: string, value: string)
    requires encoder.Valid()
    ensures var piece := encoder.Name(name) + "=" + encoder.Value(value);
            var i := EqualsAt(piece);
            && '&' !in piece && piece[0] != '?' && i < |piece|
            && UnescapeDataString(piece[..i]) == name
            && UnescapeDataString(PlusToSpace(piece[i + 1..])) == value
  {
    var piece := encoder.Name(name) + "=" + encoder.Value(value);
    PrintedName(encoder, name);
    PrintedValue(encoder, value);
    EqualsAfter(encoder.Name(name), encoder.Value(value));
    assert piece[..|encoder.Name(name)|] == encoder.Name(name);
    assert piece[|encoder.Name(name)| + 1..] == encoder.Value(value);
  }

  function AsMap(parameters: seq<Parameter>, query: map<string, string>): map<string, string>
    decreases |parameters|
  {
    if parameters == [] then query else AsMap(parameters[1..], query[parameters[0].0 := parameters[0].1])
  }

  predicate Clash(parameters: seq<Parameter>, query: map<string, string>) {
    !Distinct(parameters) || exists i :: 0 <= i < |parameters| && parameters[i].0 in query
  }

  lemma CollectPiece(encoder: Encoder, name: string, value: string, rest: seq<string>, query: map<string, string>)
    requires encoder.Valid()
    ensures Collect([encoder.Name(name) + "=" + encoder.Value(value)] + rest, query) ==
            if name in query then None else Collect(rest, query[name := value])
  {
    PrintedPiece(encoder, name, value);
    var pieces := [encoder.Name(name) + "=" + encoder.Value(value)] + rest;
    assert pieces[1..] == rest;
  }

  lemma {:induction false} CollectPrinted(encoder: Encoder, parameters: seq<Parameter>, query: map<string, string>)
    requires encoder.Valid()
    ensures Collect(Pieces(encoder, parameters), query) ==
            if Clash(parameters, query) then None else Some(AsMap(parameters, query))
    decreases |parameters|
  {
    if parameters != [] {
      var (name, value) := parameters[0];
      var rest := parameters[1..];
      CollectPiece(encoder, name, value, Pieces(encoder, rest), query);
      CollectPrinted(encoder, rest, query[name := value]);
      ClashCons(parameters, query);
    }
  }

  lemma ClashCons(parameters: seq<Parameter>, query: map<string, string>)
    requires parameters != []
    ensures Clash(parameters, query) <==>
              parameters[0].0 in query || Clash(parameters[1..], query[parameters[0].0 := parameters[0].1])
  {
    var rest, more := parameters[1..], query[parameters[0].0 := parameters[0].1];
    assert forall i :: 0 <= i < |rest| ==> rest[i] == parameters[i + 1];
    if Clash(parameters, query) && parameters[0].0 !in query {
      if !Distinct(parameters) {
        var i, j :| 0 <= i < j < |parameters| && parameters[i].0 == parameters[j].0;
        if i == 0 {
          assert rest[j - 1].0 in more;
        } else {
          assert rest[i - 1].0 == rest[j - 1].0;
        }
      } else {
        var i :| 0 <= i < |parameters| && parameters[i].0 in query;
        assert rest[i - 1].0 in more;
      }
    }
    if Clash(rest, more) {
      if !Distinct(rest) {
        var i, j :| 0 <= i < j < |rest| && rest[i].0 == rest[j].0;
        assert parameters[i + 1].0 == parameters[j + 1].0;
      } else {
        var i :| 0 <= i < |rest| && rest[i].0 in more;
        assert parameters[i + 1].0 in query || parameters[i + 1].0 == parameters[0].0;
      }
    }
  }

  lemma {:induction false} AsMapHas(parameters: seq<Parameter>, query: map<string, string>, name: string, value: string)
    requires !Clash(parameters, query)
    ensures name in AsMap(parameters, query) && AsMap(parameters, query)[name] == value <==>
              (name, value) in parameters || (name in query && query[name] == value)
    decreases |parameters|
  {
    if parameters != [] {
      ClashCons(parameters, query);
      AsMapHas(parameters[1..], query[parameters[0].0 := parameters[0].1], name, value);
      assert parameters == [parameters[0]] + parameters[1..];
    }
  }

  lemma {:induction false} PrintedQueryCollects(encoder: Encoder, parameters: seq<Parameter>)
    requires encoder.Valid()
    ensures Collect(Split(TrimMarks(PrintQuery(encoder, parameters)), '&'), map[]) ==
            if Distinct(parameters) then Some(AsMap(parameters, map[])) else None
  {
    PiecesAreClean(encoder, parameters);
    CollectPrinted(encoder, parameters, map[]);
    if parameters == [] {
      assert Collect([""], map[]) == Collect([], map[]);
    } else {
      var text := Join(Pieces(encoder, parameters), '&');
      assert ("?" + text)[1..] == text;
      assert text != "" && text[0] == Pieces(encoder, parameters)[0][0];
      assert TrimMarks("?" + text) == TrimMarks(text) == text;
      SplitJoin(Pieces(encoder, parameters), '&');
    }
  }

  lemma {:induction false} PiecesAreClean(encoder: Encoder, parameters: seq<Parameter>)
    requires encoder.Valid()
    ensures |Pieces(encoder, parameters)| == |parameters|
    ensures forall i :: 0 <= i < |parameters| ==>
              var piece := Pieces(encoder, parameters)[i]; '&' !in piece && piece != "" && piece[0] != '?'
  {
    if parameters != [] {
      PrintedPiece(encoder, parameters[0].0, parameters[0].1);
      PiecesAreClean(encoder, parameters[1..]);
    }
  }

  lemma Collected(parameters: seq<Parameter>, name: string)
    requires Distinct(parameters)
    ensures var query := AsMap(parameters, map[]);
            forall value :: (name in query && query[name] == value) <==> (name, value) in parameters
  {
    forall value ensures var query := AsMap(parameters, map[]);
                         (name in query && query[name] == value) <==> (name, value) in parameters {
      AsMapHas(parameters, map[], name, value);
    }
  }

  lemma DecideHas(parameters: seq<Parameter>, state: string, code: string)
    requires Distinct(parameters)
    ensures var outcome := Decide(AsMap(parameters, map[]), state);
            && outcome != Invalid
            && (outcome == Unverified <==> ("state", state) !in parameters)
            && (outcome == Code(code) <==>
                && ("state", state) in parameters
                && ("code", code) in parameters && !OnlySpace(code)
                && (forall value :: ("error", value) !in parameters))
  {
    var query := AsMap(parameters, map[]);
    Collected(parameters, "state");
    Collected(parameters, "code");
    Collected(parameters, "error");
    if "error" in query {
      assert ("error", query["error"]) in parameters;
    }
  }

  /**
    For every list of parameters, percent-encoded by any encoder: a repeated name is rejected, and
    otherwise the code comes back exactly when the state matches, the code is not blank, and no error
    is reported.
   */
  lemma CodeComesBackExactly(encoder: Encoder, parameters: seq<Parameter>, state: string, code: string)
    requires encoder.Valid()
    ensures !Distinct(parameters) <==> CodeOf(PrintQuery(encoder, parameters), state) == Invalid
    ensures CodeOf(PrintQuery(encoder, parameters), state) == Code(code) <==>
              && Distinct(parameters)
              && ("state", state) in parameters
              && ("code", code) in parameters && !OnlySpace(code)
              && (forall value :: ("error", value) !in parameters)
    ensures Distinct(parameters) ==>
              (CodeOf(PrintQuery(encoder, parameters), state) == Unverified <==> ("state", state) !in parameters)
  {
    PrintedQueryCollects(encoder, parameters);
    if Distinct(parameters) {
      DecideHas(parameters, state, code);
    }
  }

  // ----- what is rejected as malformed -----

  /** The decoded name of a piece. */
  function NameOf(piece: string): string {
    UnescapeDataString(piece[..EqualsAt(piece)])
  }

  /** The i-th piece is no parameter, or one whose name has been seen: in `query`, or in an earlier piece. */
  predicate Malformed(pieces: seq<string>, i: nat, query: map<string, string>) {
    i < |pieces| && pieces[i] != "" &&
    (|| '=' !in pieces[i]
     || NameOf(pieces[i]) in query
     || exists j :: 0 <= j < i && pieces[j] != "" && '=' in pieces[j] && NameOf(pieces[j]) == NameOf(pieces[i]))
  }

  ghost predicate SomeMalformed(pieces: seq<string>, query: map<string, string>) {
    exists i: nat :: Malformed(pieces, i, query)
  }

  /** The first piece and the rest of them, in terms of the query after the first one. */
  lemma MalformedCons(pieces: seq<string>, query: map<string, string>, value: string)
    requires pieces != []
    ensures var rest := pieces[1..];
            if pieces[0] == "" then SomeMalformed(pieces, query) <==> SomeMalformed(rest, query)
            else if '=' !in pieces[0] || NameOf(pieces[0]) in query then SomeMalformed(pieces, query)
            else SomeMalformed(pieces, query) <==> SomeMalformed(rest, query[NameOf(pieces[0]) := value])
  {
    var rest := pieces[1..];
    if pieces[0] != "" && ('=' !in pieces[0] || NameOf(pieces[0]) in query) {
      assert Malformed(pieces, 0, query);
    } else {
      var more := if pieces[0] == "" then query else query[NameOf(pieces[0]) := value];
      if SomeMalformed(rest, more) {
        var i: nat :| Malformed(rest, i, more);
        MalformedShifts(pieces, i, query, value);
      }
      if SomeMalformed(pieces, query) {
        var i: nat :| Malformed(pieces, i, query);
        MalformedShifts(pieces, i - 1, query, value);
      }
    }
  }

  lemma MalformedShifts(pieces: seq<string>, i: nat, query: map<string, string>, value: string)
    requires pieces != [] && (pieces[0] != "" ==> '=' in pieces[0] && NameOf(pieces[0]) !in query)
    ensures Malformed(pieces[1..], i, if pieces[0] == "" then query else query[NameOf(pieces[0]) := value]) <==>
            Malformed(pieces, i + 1, query)
  {
    var rest, more := pieces[1..], if pieces[0] == "" then query else query[NameOf(pieces[0]) := value];
    if i < |rest| {
      assert rest[i] == pieces[i + 1];
      assert forall j :: 0 <= j < i ==> rest[j] == pieces[j + 1];
      if j :| 0 <= j < i + 1 && pieces[j] != "" && '=' in pieces[j] && NameOf(pieces[j]) == NameOf(pieces[i + 1]) {
        assert j > 0 ==> rest[j - 1] == pieces[j];
      }
      if j :| 0 <= j < i && rest[j] != "" && '=' in rest[j] && NameOf(rest[j]) == NameOf(rest[i]) {
        assert pieces[j + 1] == rest[j];
      }
    }
  }

  lemma {:induction false} CollectFailsExactlyWhen(pieces: seq<string>, query: map<string, string>)
    ensures Collect(pieces, query).None? <==> SomeMalformed(pieces, query)
    decreases |pieces|
  {
    if pieces != [] {
      var i := EqualsAt(pieces[0]);
      assert i < |pieces[0]| <==> '=' in pieces[0];
      var value := if i < |pieces[0]| then UnescapeDataString(PlusToSpace(pieces[0][i + 1..])) else "";
      MalformedCons(pieces, query, value);
      if pieces[0] == "" {
        CollectFailsExactlyWhen(pieces[1..], query);
      } else if i < |pieces[0]| && NameOf(pieces[0]) !in query {
        CollectFailsExactlyWhen(pieces[1..], query[NameOf(pieces[0]) := value]);
      }
    }
  }

  /** Question marks in front of the query, however many, make no difference. */
  lemma MarksAreIgnored(callbackQuery: string, state: string)
    ensures CodeOf("?" + callbackQuery, state) == CodeOf(callbackQuery, state)
  {
    assert ("?" + callbackQuery)[1..] == callbackQuery;
  }

  /** Any callback query is rejected as malformed if and only if a piece of it has no '=' or repeats a name. */
  lemma InvalidExactlyWhen(callbackQuery: string, state: string)
    ensures CodeOf(callbackQuery, state) == Invalid <==> SomeMalformed(Split(TrimMarks(callbackQuery), '&'), map[])
  {
    CollectFailsExactlyWhen(Split(TrimMarks(callbackQuery), '&'), map[]);
  }
}
