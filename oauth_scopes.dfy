/**
 * OAuth scope handling (internal/server/connect_oauth.go:65-112): the server
 * knows two scopes, `read` and `write`, and every granted scope list holds
 * `read`.
 */
module OAuthScopes {
  import opened Text
  import opened Sorting

  predicate Known(scope: string)
  {
    scope == "read" || scope == "write"
  }

  /** The known scopes among `parts`, trimmed, each kept at its first appearance. */
  function KnownInOrder(parts: seq<string>): (r: seq<string>)
    decreases |parts|
  {
    if |parts| == 0 then []
    else
      var before := KnownInOrder(parts[..|parts| - 1]);
      var scope := TrimSpace(parts[|parts| - 1]);
      if scope == "" || !Known(scope) || scope in before then before else before + [scope]
  }

  /** What normalizeOAuthScopes returns for `raw`. */
  function ScopesOf(raw: string): seq<string>
  {
    var out := KnownInOrder(Fields(raw));
    if |out| == 0 then ["read"]
    else if "read" !in out then ["read"] + out
    else out
  }

  /** Every part, trimmed. */
  function TrimAll(parts: seq<string>): (r: seq<string>)
    ensures |r| == |parts| && forall i :: 0 <= i < |parts| ==> r[i] == TrimSpace(parts[i])
  {
    seq(|parts|, i requires 0 <= i < |parts| => TrimSpace(parts[i]))
  }

  /** The kept scopes are known, distinct, and exactly the known trimmed parts. */
  lemma {:induction false} KnownInOrderFacts(parts: seq<string>)
    ensures var r := KnownInOrder(parts);
      NoDuplicates(r)
      && (forall i :: 0 <= i < |r| ==> Known(r[i]))
      && (forall x :: x in r <==> Known(x) && x in TrimAll(parts))
    decreases |parts|
  {
    if |parts| > 0 {
      var init := parts[..|parts| - 1];
      KnownInOrderFacts(init);
      assert TrimAll(parts) == TrimAll(init) + [TrimSpace(parts[|parts| - 1])];
    }
  }

  /** Both known scopes are single words. */
  lemma KnownIsWord(x: string)
    requires Known(x)
    ensures x != "" && NoSpace(x) && TrimSpace(x) == x
  {
    if x == "read" {
      assert NoSpace("read");
    } else {
      assert NoSpace("write");
    }
    TrimOfWord(x);
  }

  /** normalizeOAuthScopes(raw): the known scopes of `raw` in first-appearance order, with `read` first when missing. */
  method NormalizeScopes(raw: string) returns (out: seq<string>)
    ensures out == ScopesOf(raw)
  {
    var parts := Fields(raw);
    if |parts| == 0 {
      return ["read"];
    }
    out := [];
    var i := 0;
    while i < |parts|
      invariant 0 <= i <= |parts|
      invariant out == KnownInOrder(parts[..i])
    {
      assert parts[..i + 1][..i] == parts[..i];
      var scope := TrimSpace(parts[i]);
      if scope != "" && Known(scope) && scope !in out {
        out := out + [scope];
      }
      i := i + 1;
    }
    assert parts[..|parts|] == parts;
    if |out| == 0 {
      return ["read"];
    }
    if "read" !in out {
      out := ["read"] + out;
    }
  }

  /** Every granted list holds `read`, only known scopes, each once. */
  lemma ScopesWellFormed(raw: string)
    ensures var r := ScopesOf(raw);
      "read" in r && NoDuplicates(r) && forall i :: 0 <= i < |r| ==> Known(r[i])
  {
    KnownInOrderFacts(Fields(raw));
  }

  /** `write` is granted exactly when some word of `raw` is `write`; blank input grants only `read`. */
  lemma ScopesCharacterised(raw: string)
    ensures "write" in ScopesOf(raw) <==> "write" in Fields(raw)
    ensures IsBlank(raw) ==> ScopesOf(raw) == ["read"]
  {
    var parts := Fields(raw);
    KnownInOrderFacts(parts);
    forall j | 0 <= j < |parts| ensures TrimSpace(parts[j]) == parts[j] {
      TrimOfWord(parts[j]);
    }
    assert TrimAll(parts) == parts;
    FieldsEmptyIff(raw);
  }

  /** A word without white space trims to itself. */
  lemma TrimOfWord(w: string)
    requires w != "" && NoSpace(w)
    ensures TrimSpace(w) == w
  {
    assert TrimLeft(w) == w;
    assert TrimRight(w) == w;
  }

  /** oauthScopeString: `read` for no scopes, else the space-joined list. */
  function ScopeString(scopes: seq<string>): (r: string)
    ensures |scopes| == 0 ==> r == "read"
    ensures |scopes| > 0 && (forall i :: 0 <= i < |scopes| ==> scopes[i] != "" && NoSpace(scopes[i])) ==> Fields(r) == scopes
  {
    if |scopes| == 0 then "read"
    else
      FieldsOfJoinSpaced(scopes);
      Join(scopes, " ")
  }

  lemma FieldsOfJoinSpaced(scopes: seq<string>)
    ensures (forall i :: 0 <= i < |scopes| ==> scopes[i] != "" && NoSpace(scopes[i])) ==> Fields(Join(scopes, " ")) == scopes
  {
    if forall i :: 0 <= i < |scopes| ==> scopes[i] != "" && NoSpace(scopes[i]) {
      FieldsOfJoin(scopes);
    }
  }

  /** Writing a granted list as a scope string and normalising it again gives the same list. */
  lemma ScopeStringRoundTrip(raw: string)
    ensures ScopesOf(ScopeString(ScopesOf(raw))) == ScopesOf(raw)
  {
    var r := ScopesOf(raw);
    ScopesWellFormed(raw);
    forall i | 0 <= i < |r| ensures r[i] != "" && NoSpace(r[i]) {
      KnownIsWord(r[i]);
    }
    assert Fields(ScopeString(r)) == r;
    KnownOfDistinctKnown(r);
  }

  /** A list of distinct known scopes keeps itself. */
  lemma {:induction false} KnownOfDistinctKnown(r: seq<string>)
    requires NoDuplicates(r) && forall i :: 0 <= i < |r| ==> Known(r[i])
    ensures KnownInOrder(r) == r
    decreases |r|
  {
    if |r| > 0 {
      var init := r[..|r| - 1];
      KnownOfDistinctKnown(init);
      var last := r[|r| - 1];
      KnownIsWord(last);
      assert last !in init;
      assert init + [last] == r;
    }
  }

  /**
   * verifyPKCES256: the challenge must equal the unpadded base64url SHA-256 of
   * the verifier (RFC 7636 section 4.6); `s256` stands for that encoding.
   */
  function VerifyPKCES256(verifier: string, challenge: string, s256: string -> string): (ok: bool)
    ensures ok ==> verifier != "" && challenge != ""
    ensures ok ==> s256(verifier) == challenge
    ensures verifier != "" && challenge != "" && s256(verifier) == challenge ==> ok
  {
    if verifier == "" || challenge == "" then false
    else s256(verifier) == challenge
  }
}
