/**
 * `CookieJWTAuthentication`: where the access token of a request comes from.
 * The `Authorization` header, as the JWT library hands it over, is a byte
 * string; `get_raw_token` splits it on ASCII whitespace and decides on the
 * number of parts; `authenticate` uses the header when there is one and the
 * `access_token` cookie only when there is none. Token validation and the user
 * lookup are collaborators passed in as functions.
 */
module Authentication {
  import opened Wrappers

  // ---------------------------------------------------------------------------
  // Byte strings
  // ---------------------------------------------------------------------------

  /** The bytes `bytes.split()` treats as whitespace: tab, line feed, vertical tab,
      form feed, carriage return and space. */
  predicate IsSpace(b: bv8) {
    b == 9 || b == 10 || b == 11 || b == 12 || b == 13 || b == 32
  }

  predicate NoSpace(s: seq<bv8>) {
    forall k :: 0 <= k < |s| ==> !IsSpace(s[k])
  }

  predicate Blank(s: seq<bv8>) {
    forall k :: 0 <= k < |s| ==> IsSpace(s[k])
  }

  /** The longest prefix of `s` without whitespace. */
  function Word(s: seq<bv8>): (w: seq<bv8>)
    ensures w <= s && NoSpace(w)
    ensures |w| == |s| || IsSpace(s[|w|])
  {
    if s == [] || IsSpace(s[0]) then []
    else [s[0]] + Word(s[1..])
  }

  /** `bytes.split()` with no separator: the maximal runs of non-whitespace bytes, in order. */
  function Split(s: seq<bv8>): (parts: seq<seq<bv8>>)
    ensures forall k :: 0 <= k < |parts| ==> parts[k] != [] && NoSpace(parts[k])
    decreases |s|
  {
    if s == [] then []
    else if IsSpace(s[0]) then Split(s[1..])
    else
      var w := Word(s);
      [w] + Split(s[|w|..])
  }

  /** Words separated by single spaces; the inverse of Split on words. */
  function JoinSpaced(parts: seq<seq<bv8>>): seq<bv8>
    decreases |parts|
  {
    if parts == [] then []
    else if |parts| == 1 then parts[0]
    else parts[0] + [32] + JoinSpaced(parts[1..])
  }

  /** `s` with every whitespace byte removed. */
  function Strip(s: seq<bv8>): (r: seq<bv8>)
    ensures NoSpace(r) && |r| <= |s|
  {
    if s == [] then []
    else (if IsSpace(s[0]) then [] else [s[0]]) + Strip(s[1..])
  }

  /** The parts written one after the other. */
  function Concat(parts: seq<seq<bv8>>): seq<bv8>
    decreases |parts|
  {
    if parts == [] then [] else parts[0] + Concat(parts[1..])
  }

  /** The parts with a separator before, between and after them:
      `seps[0] + parts[0] + seps[1] + ... + parts[n-1] + seps[n]`. */
  function Interleave(parts: seq<seq<bv8>>, seps: seq<seq<bv8>>): seq<bv8>
    requires |seps| == |parts| + 1
    decreases |parts|
  {
    if parts == [] then seps[0] else seps[0] + parts[0] + Interleave(parts[1..], seps[1..])
  }

  /** `bytes.lower()`: ASCII upper-case letters become lower-case, every other byte is kept. */
  function Lower(s: seq<bv8>): (r: seq<bv8>)
    ensures |r| == |s|
    ensures forall k :: 0 <= k < |s| ==> r[k] == if 65 <= s[k] <= 90 then s[k] + 32 else s[k]
  {
    if s == [] then [] else [if 65 <= s[0] <= 90 then s[0] + 32 else s[0]] + Lower(s[1..])
  }

  /** The bytes of `bearer`. */
  const BearerBytes: seq<bv8> := [0x62, 0x65, 0x61, 0x72, 0x65, 0x72]

  // ---------------------------------------------------------------------------
  // Properties of splitting
  // ---------------------------------------------------------------------------

  /** A word followed by nothing or by whitespace is read back whole. */
  lemma {:induction false} WordOfPrefix(w: seq<bv8>, rest: seq<bv8>)
    requires NoSpace(w)
    requires rest == [] || IsSpace(rest[0])
    ensures Word(w + rest) == w
    decreases |w|
  {
    if w == [] {
      assert w + rest == rest;
    } else {
      assert (w + rest)[1..] == w[1..] + rest;
      WordOfPrefix(w[1..], rest);
    }
  }

  /** Splitting a header of words separated by single spaces gives the words back. */
  lemma {:induction false} SplitJoinSpaced(parts: seq<seq<bv8>>)
    requires forall k :: 0 <= k < |parts| ==> parts[k] != [] && NoSpace(parts[k])
    ensures Split(JoinSpaced(parts)) == parts
    decreases |parts|
  {
    if |parts| == 1 {
      var w := parts[0];
      WordOfPrefix(w, []);
      assert w + [] == w;
      assert w[|w|..] == [];
    } else if |parts| > 1 {
      var w, rest := parts[0], JoinSpaced(parts[1..]);
      var s := w + [32] + rest;
      WordOfPrefix(w, [32] + rest);
      assert s == w + ([32] + rest);
      assert s[|w|..] == [32] + rest;
      assert ([32] + rest)[1..] == rest;
      SplitJoinSpaced(parts[1..]);
    }
  }

  /** Leading whitespace does not change the split. */
  lemma {:induction false} SplitSkipBlank(b: seq<bv8>, s: seq<bv8>)
    requires Blank(b)
    ensures Split(b + s) == Split(s)
    decreases |b|
  {
    if b == [] {
      assert b + s == s;
    } else {
      assert (b + s)[0] == b[0] && IsSpace(b[0]);
      assert Split(b + s) == Split((b + s)[1..]);
      assert (b + s)[1..] == b[1..] + s;
      SplitSkipBlank(b[1..], s);
    }
  }

  /** Splitting words separated by any non-empty runs of whitespace, with any whitespace
      before the first and after the last, gives the words back. */
  lemma {:induction false} SplitInterleave(parts: seq<seq<bv8>>, seps: seq<seq<bv8>>)
    requires forall k :: 0 <= k < |parts| ==> parts[k] != [] && NoSpace(parts[k])
    requires |seps| == |parts| + 1
    requires forall k :: 0 <= k < |seps| ==> Blank(seps[k])
    requires forall k :: 0 < k < |parts| ==> seps[k] != []
    ensures Split(Interleave(parts, seps)) == parts
    decreases |parts|
  {
    if parts == [] {
      SplitEmptyIffBlank(seps[0]);
    } else {
      var w, rest := parts[0], Interleave(parts[1..], seps[1..]);
      assert Interleave(parts, seps) == seps[0] + (w + rest);
      SplitSkipBlank(seps[0], w + rest);
      assert seps[1] <= rest;
      assert rest == [] || IsSpace(rest[0]) by {
        if seps[1] == [] {
          assert |parts| == 1;
        } else {
          assert rest[0] == seps[1][0];
        }
      }
      WordOfPrefix(w, rest);
      assert (w + rest)[0] == w[0];
      assert (w + rest)[|w|..] == rest;
      SplitInterleave(parts[1..], seps[1..]);
    }
  }

  /** Removing whitespace from a sequence that ends in a word: the word is kept whole. */
  lemma {:induction false} StripNoSpacePrefix(w: seq<bv8>, rest: seq<bv8>)
    requires NoSpace(w)
    ensures Strip(w + rest) == w + Strip(rest)
    decreases |w|
  {
    if w == [] {
      assert w + rest == rest;
    } else {
      assert (w + rest)[0] == w[0];
      assert (w + rest)[1..] == w[1..] + rest;
      StripNoSpacePrefix(w[1..], rest);
      assert [w[0]] + (w[1..] + Strip(rest)) == w + Strip(rest);
    }
  }

  /** The parts of a split hold exactly the non-whitespace bytes of the header, in order. */
  lemma {:induction false} SplitKeepsNonSpace(s: seq<bv8>)
    ensures Concat(Split(s)) == Strip(s)
    decreases |s|
  {
    if s != [] {
      if IsSpace(s[0]) {
        SplitKeepsNonSpace(s[1..]);
      } else {
        var w := Word(s);
        var rest := s[|w|..];
        assert s == w + rest;
        assert Split(s) == [w] + Split(rest);
        assert ([w] + Split(rest))[1..] == Split(rest);
        SplitKeepsNonSpace(rest);
        StripNoSpacePrefix(w, rest);
      }
    }
  }

  /** A header splits into no parts exactly when it is empty or all whitespace. */
  lemma {:induction false} SplitEmptyIffBlank(s: seq<bv8>)
    ensures Split(s) == [] <==> Blank(s)
    decreases |s|
  {
    if s != [] {
      SplitEmptyIffBlank(s[1..]);
      if IsSpace(s[0]) {
        assert Blank(s) <==> Blank(s[1..]) by {
          if Blank(s[1..]) {
            forall k | 0 <= k < |s| ensures IsSpace(s[k]) {
              if k > 0 { assert s[k] == s[1..][k - 1]; }
            }
          }
        }
      }
    }
  }

  // ---------------------------------------------------------------------------
  // get_raw_token
  // ---------------------------------------------------------------------------

  /** A Python value as the comparison on line 50 sees it: `bytes` and `str` are
      different types, and a `bytes` never equals a `str`. */
  datatype PyValue = PyBytes(b: seq<bv8>) | PyStr(s: string)

  /** Python's `==` on the two types. */
  predicate PyEquals(x: PyValue, y: PyValue) {
    match x
    case PyBytes(a) => y.PyBytes? && y.b == a
    case PyStr(a) => y.PyStr? && y.s == a
  }

  /** `get_raw_token(header)` as written: the lower-cased first part, a byte string,
      is compared with the text `'bearer'`. */
  function GetRawTokenAsWritten(header: seq<bv8>): (r: Option<seq<bv8>>)
    ensures r.Some? ==> r.value in Split(header) && r.value != [] && NoSpace(r.value)
  {
    var parts := Split(header);
    if |parts| == 0 then None
    else if |parts| == 1 then Some(parts[0])
    else if |parts| == 2 && PyEquals(PyBytes(Lower(parts[0])), PyStr("bearer")) then Some(parts[1])
    else None
  }

  /** `get_raw_token(header)` as evidently intended: the first of two parts is
      compared, ignoring ASCII case, with the bytes of `bearer`. */
  function GetRawToken(header: seq<bv8>): (r: Option<seq<bv8>>)
    ensures r.Some? ==> r.value in Split(header) && r.value != [] && NoSpace(r.value)
    ensures Blank(header) ==> r == None
  {
    SplitEmptyIffBlank(header);
    var parts := Split(header);
    if |parts| == 0 then None
    else if |parts| == 1 then Some(parts[0])
    else if |parts| == 2 && Lower(parts[0]) == BearerBytes then Some(parts[1])
    else None
  }

  /** The token a header of words separated by runs of whitespace yields (with any
      whitespace before and after): a lone word is the token, `bearer <token>` in any
      letter case gives the token, anything else none. */
  lemma RawTokenOfWords(parts: seq<seq<bv8>>, seps: seq<seq<bv8>>)
    requires forall k :: 0 <= k < |parts| ==> parts[k] != [] && NoSpace(parts[k])
    requires |seps| == |parts| + 1
    requires forall k :: 0 <= k < |seps| ==> Blank(seps[k])
    requires forall k :: 0 < k < |parts| ==> seps[k] != []
    ensures GetRawToken(Interleave(parts, seps)) ==
            if |parts| == 1 then Some(parts[0])
            else if |parts| == 2 && Lower(parts[0]) == BearerBytes then Some(parts[1])
            else None
  {
    SplitInterleave(parts, seps);
  }

  /** As written, no header of two parts ever yields a token: the byte string never
      equals the text `'bearer'`. */
  lemma AsWrittenRejectsEveryPair(header: seq<bv8>)
    requires |Split(header)| == 2
    ensures GetRawTokenAsWritten(header) == None
  {
  }

  /** The two readings agree on every header that does not split into two parts. */
  lemma AsWrittenAgreesOtherwise(header: seq<bv8>)
    requires |Split(header)| != 2
    ensures GetRawTokenAsWritten(header) == GetRawToken(header)
  {
  }

  /** `Bearer abc`: no token as written, the token `abc` as intended. */
  lemma BearerHeaderCounterexample()
    ensures var header: seq<bv8> := [0x42, 0x65, 0x61, 0x72, 0x65, 0x72, 0x20, 0x61, 0x62, 0x63];
            GetRawTokenAsWritten(header) == None && GetRawToken(header) == Some([0x61, 0x62, 0x63])
  {
    var bearer: seq<bv8> := [0x42, 0x65, 0x61, 0x72, 0x65, 0x72];
    var abc: seq<bv8> := [0x61, 0x62, 0x63];
    assert JoinSpaced([bearer, abc]) == [0x42, 0x65, 0x61, 0x72, 0x65, 0x72, 0x20, 0x61, 0x62, 0x63];
    SplitJoinSpaced([bearer, abc]);
    CapitalBearer();
  }

  /** `Bearer` lower-cases to `bearer`. */
  lemma CapitalBearer()
    ensures Lower([0x42, 0x65, 0x61, 0x72, 0x65, 0x72]) == BearerBytes
  {
    var bearer: seq<bv8> := [0x42, 0x65, 0x61, 0x72, 0x65, 0x72];
    var low := Lower(bearer);
    forall k | 0 <= k < 6 ensures low[k] == BearerBytes[k] {
      assert low[k] == if 65 <= bearer[k] <= 90 then bearer[k] + 32 else bearer[k];
    }
  }

  // ---------------------------------------------------------------------------
  // authenticate
  // ---------------------------------------------------------------------------

  /** An unvalidated token: bytes from the header, or the text of the cookie. */
  datatype RawToken = HeaderToken(bytes: seq<bv8>) | CookieToken(text: string)

  /** The raw token `authenticate` goes on with: from the header when the request has
      one, from the `access_token` cookie only when it has none. `extract` is the
      `get_raw_token` the class uses on the header (as written or corrected). */
  function RawTokenOf(extract: seq<bv8> -> Option<seq<bv8>>, header: Option<seq<bv8>>,
                      cookies: map<string, string>): (r: Option<RawToken>)
    ensures header.Some? ==> (r.Some? <==> extract(header.value).Some?)
    ensures header.Some? && r.Some? ==> r.value == HeaderToken(extract(header.value).value)
    ensures header.None? ==> r == if "access_token" in cookies then Some(CookieToken(cookies["access_token"])) else None
  {
    match header
    case Some(h) =>
      (match extract(h)
       case Some(t) => Some(HeaderToken(t))
       case None => None)
    case None => if "access_token" in cookies then Some(CookieToken(cookies["access_token"])) else None
  }

  /** `authenticate(request)`: the user and the validated token, or None when there is
      no raw token, validation raises, or the user lookup raises (`None` from
      `validate` and `getUser` stands for the exception the method swallows). */
  function Authenticate<V, U>(extract: seq<bv8> -> Option<seq<bv8>>, header: Option<seq<bv8>>,
                              cookies: map<string, string>,
                              validate: RawToken -> Option<V>, getUser: V -> Option<U>): (r: Option<(U, V)>)
    ensures r.Some? ==> exists t :: RawTokenOf(extract, header, cookies) == Some(t) && validate(t) == Some(r.value.1)
    ensures r.Some? ==> getUser(r.value.1) == Some(r.value.0)
    ensures var raw := RawTokenOf(extract, header, cookies);
            r.Some? <==> raw.Some? && validate(raw.value).Some? && getUser(validate(raw.value).value).Some?
  {
    match RawTokenOf(extract, header, cookies)
    case None => None
    case Some(t) =>
      match validate(t)
      case None => None
      case Some(v) =>
        match getUser(v)
        case None => None
        case Some(u) => Some((u, v))
  }

  /** A header, when present, is used alone: the cookies do not matter, so a header
      that yields no token means no authentication even with a valid cookie. */
  lemma HeaderTakesPrecedence<V, U>(extract: seq<bv8> -> Option<seq<bv8>>, h: seq<bv8>,
                                    cookies: map<string, string>, others: map<string, string>,
                                    validate: RawToken -> Option<V>, getUser: V -> Option<U>)
    ensures Authenticate(extract, Some(h), cookies, validate, getUser) == Authenticate(extract, Some(h), others, validate, getUser)
    ensures extract(h).None? ==> Authenticate(extract, Some(h), cookies, validate, getUser) == None
  {
  }

  /** Every failure along the way ends in None rather than an error: no raw token,
      a token that does not validate, or a validated token without a user. */
  lemma FailuresGiveNone<V, U>(extract: seq<bv8> -> Option<seq<bv8>>, header: Option<seq<bv8>>,
                               cookies: map<string, string>,
                               validate: RawToken -> Option<V>, getUser: V -> Option<U>)
    ensures RawTokenOf(extract, header, cookies).None? ==> Authenticate(extract, header, cookies, validate, getUser) == None
    ensures forall t :: RawTokenOf(extract, header, cookies) == Some(t) && validate(t).None? ==>
              Authenticate(extract, header, cookies, validate, getUser) == None
    ensures forall t, v :: RawTokenOf(extract, header, cookies) == Some(t) && validate(t) == Some(v) && getUser(v).None? ==>
              Authenticate(extract, header, cookies, validate, getUser) == None
  {
  }

  /** As written, a request with a header authenticates only when the header is a
      single word: a `Bearer <token>` header never does, and the cookie is not consulted. */
  lemma AsWrittenOnlyBareHeaders<V, U>(header: Option<seq<bv8>>, cookies: map<string, string>,
                                       validate: RawToken -> Option<V>, getUser: V -> Option<U>)
    ensures Authenticate(GetRawTokenAsWritten, header, cookies, validate, getUser).Some? && header.Some? ==>
              |Split(header.value)| == 1
  {
  }

  /** As intended, `Bearer <token>` (the scheme in any letter case, any whitespace
      around and between) authenticates with the token whenever it validates and its
      user exists, whatever the cookies hold. */
  lemma BearerHeaderAuthenticates<V, U>(scheme: seq<bv8>, token: seq<bv8>, seps: seq<seq<bv8>>,
                                        cookies: map<string, string>,
                                        validate: RawToken -> Option<V>, getUser: V -> Option<U>, v: V, u: U)
    requires Lower(scheme) == BearerBytes && token != [] && NoSpace(token)
    requires |seps| == 3 && Blank(seps[0]) && Blank(seps[1]) && Blank(seps[2]) && seps[1] != []
    requires validate(HeaderToken(token)) == Some(v) && getUser(v) == Some(u)
    ensures Authenticate(GetRawToken, Some(Interleave([scheme, token], seps)), cookies, validate, getUser) == Some((u, v))
  {
    assert scheme != [] && NoSpace(scheme) by {
      forall k | 0 <= k < |scheme| ensures !IsSpace(scheme[k]) {
        assert Lower(scheme)[k] == BearerBytes[k];
      }
    }
    RawTokenOfWords([scheme, token], seps);
  }
}
