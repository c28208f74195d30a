/** Stored plaintexts. JSON is kept as its value, so texts are told apart up to JSON layout. */
module Texts {

  /**
    Chars: text that is not JSON. Json: a JSON document. LegacyDigest: the text "legacy-" followed by
    the SHA-256 of four strings; distinct constructors and arguments stand for distinct digests.
   */
  datatype Text =
    | Chars(chars: string)
    | Json(value: JsonValue)
    | LegacyDigest(issuer: Text, clientId: Text, apiBaseUrl: Text, refreshToken: Text)

  datatype JsonValue =
    | Null
    | Str(text: Text)
    | Obj(members: map<string, JsonValue>)
    | OtherJson(code: int)

  const EMPTY: Text := Chars("")

  /** `char.IsWhiteSpace`. */
  predicate IsWhiteSpace(c: char) {
    var code := c as int;
    0x09 <= code <= 0x0D || code in {0x20, 0x85, 0xA0, 0x1680, 0x2028, 0x2029, 0x202F, 0x205F, 0x3000}
    || 0x2000 <= code <= 0x200A
  }

  /** These are the characters with the White_Space property of Unicode. */
  lemma WhiteSpaceExactly(c: char)
    ensures IsWhiteSpace(c) <==>
              c as int in {0x0009, 0x000A, 0x000B, 0x000C, 0x000D, 0x0020, 0x0085, 0x00A0, 0x1680, 0x2000, 0x2001, 0x2002, 0x2003, 0x2004,
                           0x2005, 0x2006, 0x2007, 0x2008, 0x2009, 0x200A, 0x2028, 0x2029, 0x202F, 0x205F, 0x3000}
  {
  }

  function TrimStart(s: string): string {
    if s != [] && IsWhiteSpace(s[0]) then TrimStart(s[1..]) else s
  }

  function TrimEnd(s: string): string {
    if s != [] && IsWhiteSpace(s[|s| - 1]) then TrimEnd(s[..|s| - 1]) else s
  }

  /** `string.Trim`. */
  function TrimChars(s: string): string {
    TrimEnd(TrimStart(s))
  }

  function Trim(t: Text): Text {
    if t.Chars? then Chars(TrimChars(t.chars)) else t
  }

  /** A string without anything but white space. */
  predicate OnlySpace(s: string) {
    forall i :: 0 <= i < |s| ==> IsWhiteSpace(s[i])
  }

  /** `string.IsNullOrWhiteSpace`. */
  predicate IsBlank(t: Text) {
    t.Chars? && OnlySpace(t.chars)
  }

  /** Neither end is white space. */
  predicate IsTrimmed(t: Text) {
    t.Chars? && t.chars != "" ==> !IsWhiteSpace(t.chars[0]) && !IsWhiteSpace(t.chars[|t.chars| - 1])
  }

  lemma {:induction false} TrimStartRemains(s: string)
    ensures TrimStart(s) == s || |TrimStart(s)| < |s|
    ensures TrimStart(s) != [] ==> !IsWhiteSpace(TrimStart(s)[0])
    ensures TrimStart(s) == [] <==> (forall i :: 0 <= i < |s| ==> IsWhiteSpace(s[i]))
  {
    if s != [] && IsWhiteSpace(s[0]) {
      TrimStartRemains(s[1..]);
      if TrimStart(s) == [] {
        assert forall i :: 1 <= i < |s| ==> s[i] == s[1..][i - 1];
      }
      if forall i :: 0 <= i < |s| ==> IsWhiteSpace(s[i]) {
        assert forall i :: 0 <= i < |s| - 1 ==> s[1..][i] == s[i + 1];
      }
    }
  }

  lemma {:induction false} TrimEndRemains(s: string)
    requires s != [] && !IsWhiteSpace(s[0])
    ensures TrimEnd(s) != [] && TrimEnd(s)[0] == s[0] && !IsWhiteSpace(TrimEnd(s)[|TrimEnd(s)| - 1])
  {
    if IsWhiteSpace(s[|s| - 1]) {
      TrimEndRemains(s[..|s| - 1]);
    }
  }

  lemma {:induction false} TrimStartDrops(space: string, s: string)
    requires OnlySpace(space)
    ensures TrimStart(space + s) == TrimStart(s)
  {
    if space == "" {
      assert space + s == s;
    } else {
      assert (space + s)[1..] == space[1..] + s;
      TrimStartDrops(space[1..], s);
    }
  }

  lemma {:induction false} TrimEndDrops(s: string, space: string)
    requires OnlySpace(space)
    ensures TrimEnd(s + space) == TrimEnd(s)
  {
    if space == "" {
      assert s + space == s;
    } else {
      var n := |space| - 1;
      assert (s + space)[..|s + space| - 1] == s + space[..n];
      TrimEndDrops(s, space[..n]);
    }
  }

  lemma {:induction false} TrimStartSplits(s: string) returns (space: string)
    ensures s == space + TrimStart(s) && OnlySpace(space)
  {
    space := "";
    if s != "" && IsWhiteSpace(s[0]) {
      var rest := TrimStartSplits(s[1..]);
      space := [s[0]] + rest;
      assert s == [s[0]] + s[1..];
    }
  }

  lemma {:induction false} TrimEndSplits(s: string) returns (space: string)
    ensures s == TrimEnd(s) + space && OnlySpace(space)
  {
    space := "";
    if s != "" && IsWhiteSpace(s[|s| - 1]) {
      var rest := TrimEndSplits(s[..|s| - 1]);
      space := rest + [s[|s| - 1]];
      assert s == s[..|s| - 1] + [s[|s| - 1]];
    }
  }

  /** Trimming takes away white space at both ends and nothing else. */
  lemma TrimSplits(s: string) returns (before: string, after: string)
    ensures s == before + TrimChars(s) + after && OnlySpace(before) && OnlySpace(after)
  {
    before := TrimStartSplits(s);
    after := TrimEndSplits(TrimStart(s));
    assert before + (TrimChars(s) + after) == before + TrimChars(s) + after;
  }

  /** White space around a text makes no difference once it is trimmed. */
  lemma TrimIgnoresSpace(before: string, s: string, after: string)
    requires OnlySpace(before) && OnlySpace(after)
    ensures TrimChars(before + s + after) == TrimChars(s)
  {
    assert before + s + after == before + (s + after);
    TrimStartDrops(before, s + after);
    var space := TrimStartSplits(s);
    var rest := TrimStart(s);
    assert s + after == space + (rest + after);
    TrimStartDrops(space, rest + after);
    TrimStartRemains(s);
    if rest != "" {
      TrimEndDrops(rest, after);
    } else {
      assert rest + after == after;
      TrimStartRemains(after);
    }
  }

  /** Trimming twice is trimming once, and only blank text trims to nothing. */
  lemma TrimIsIdempotent(t: Text)
    ensures Trim(Trim(t)) == Trim(t)
    ensures Trim(t) == EMPTY <==> IsBlank(t)
  {
    if t.Chars? {
      TrimStartRemains(t.chars);
      var s := TrimStart(t.chars);
      if s != [] {
        TrimEndRemains(s);
      }
    }
  }

  /** Trimming changes nothing exactly when there is nothing to trim. */
  lemma TrimmedExactlyWhen(t: Text)
    ensures IsTrimmed(t) <==> Trim(t) == t
  {
    if t.Chars? && t.chars != "" {
      TrimStartRemains(t.chars);
      if TrimStart(t.chars) != "" {
        TrimEndRemains(TrimStart(t.chars));
      }
    }
  }
}

/** The stored credential (OAuthSession.cs) and how the store recognises one. */
module Sessions {
  import opened Options
  import opened Texts

  datatype Session = Session(sessionId: Text, issuer: Text, clientId: Text, apiBaseUrl: Text, refreshToken: Text) {

    /** `GetSessionId`: the recorded id, or for a record without one a digest of the record. */
    function Id(): Text {
      if !IsBlank(sessionId) then sessionId else LegacyDigest(issuer, clientId, apiBaseUrl, refreshToken)
    }

    /** What `IsSameFamily` compares. */
    function Family(): Family {
      Grant(Id(), issuer, clientId, apiBaseUrl)
    }
  }

  datatype Family = Grant(id: Text, issuer: Text, clientId: Text, apiBaseUrl: Text)

  /** `JsonSerializer.Serialize(session)`. */
  function Print(s: Session): Text {
    Json(Obj(map["SessionId" := Str(s.sessionId), "Issuer" := Str(s.issuer), "ClientId" := Str(s.clientId),
                 "ApiBaseUrl" := Str(s.apiBaseUrl), "RefreshToken" := Str(s.refreshToken)]))
  }

  /** A string property: absent members keep the default, and null is as blank as the default. */
  function Property(members: map<string, JsonValue>, name: string): Option<Text> {
    if name !in members || members[name].Null? then Some(EMPTY)
    else if members[name].Str? then Some(members[name].text)
    else None
  }

  datatype Parsed = Malformed | JsonNull | Read(session: Session)

  /** `JsonSerializer.Deserialize<OAuthSession>`. */
  function Parse(t: Text): Parsed {
    if !t.Json? then Malformed
    else match t.value
      case Null => JsonNull
      case Obj(members) =>
        var id, issuer, client := Property(members, "SessionId"), Property(members, "Issuer"), Property(members, "ClientId");
        var api, token := Property(members, "ApiBaseUrl"), Property(members, "RefreshToken");
        if id.Some? && issuer.Some? && client.Some? && api.Some? && token.Some?
        then Read(Session(id.value, issuer.value, client.value, api.value, token.value))
        else Malformed
      case _ => Malformed
  }

  /** The member holds this text: absent and null members hold the empty one. */
  predicate Holds(members: map<string, JsonValue>, name: string, text: Text) {
    if name in members && !members[name].Null? then members[name] == Str(text) else text == EMPTY
  }

  /** Which JSON documents are session records, member by member; only the literal null is no record and no error. */
  lemma ParsedExactlyWhen(t: Text, s: Session)
    ensures Parse(t) == Read(s) <==>
              && t.Json? && t.value.Obj?
              && Holds(t.value.members, "SessionId", s.sessionId) && Holds(t.value.members, "Issuer", s.issuer)
              && Holds(t.value.members, "ClientId", s.clientId) && Holds(t.value.members, "ApiBaseUrl", s.apiBaseUrl)
              && Holds(t.value.members, "RefreshToken", s.refreshToken)
    ensures Parse(t) == JsonNull <==> t == Json(Null)
  {
  }

  /** `ReadSessionIdentity`. */
  function Identity(t: Option<Text>): Option<Session> {
    if t.None? || IsBlank(t.value) then None
    else match Parse(t.value)
      case Read(s) =>
        if !IsBlank(s.issuer) && !IsBlank(s.clientId) && !IsBlank(s.apiBaseUrl) &&
           (!IsBlank(s.sessionId) || !IsBlank(s.refreshToken)) then Some(s) else None
      case _ => None
  }

  lemma ParsePrint(s: Session)
    ensures Parse(Print(s)) == Read(s)
    ensures !IsBlank(Print(s))
  {
  }

  /** A record from which a grant can be told. */
  predicate Complete(s: Session) {
    !IsBlank(s.issuer) && !IsBlank(s.clientId) && !IsBlank(s.apiBaseUrl) && !(IsBlank(s.sessionId) && IsBlank(s.refreshToken))
  }

  /**
    Field by field: one deployment, and one id. Two records without an id have to hold the same refresh token,
    and the id of a record that was refreshed from one without is the digest of that one.
   */
  predicate SameGrant(a: Session, b: Session) {
    && a.issuer == b.issuer && a.clientId == b.clientId && a.apiBaseUrl == b.apiBaseUrl
    && if IsBlank(a.sessionId) && IsBlank(b.sessionId) then a.refreshToken == b.refreshToken
       else if IsBlank(a.sessionId) then b.sessionId == LegacyDigest(a.issuer, a.clientId, a.apiBaseUrl, a.refreshToken)
       else if IsBlank(b.sessionId) then a.sessionId == LegacyDigest(b.issuer, b.clientId, b.apiBaseUrl, b.refreshToken)
       else a.sessionId == b.sessionId
  }

  /** Two readable records belong to one grant when their families coincide. */
  predicate SameFamily(t: Option<Text>, owner: Option<Session>) {
    owner.Some? && Identity(t).Some? && Identity(t).value.Family() == owner.value.Family()
  }
}
