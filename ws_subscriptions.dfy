/**
 * Subscription lists of the WebSocket hub (internal/server/ws_events.go):
 * decoding the `chatIDs` field of a `subscriptions.set` command, normalising
 * it, and matching a chat against a connection's list.
 *
 * A normalised list is the strictly sorted list of the distinct trimmed,
 * non-blank identifiers of its input; the wildcard `*` may only stand alone.
 */
module WsSubscriptions {
  import opened Text
  import opened Sorting
  import opened JsonValues

  const Wildcard: string := "*"

  /** The trimmed, non-blank identifiers of `ids`, in order. */
  function TrimmedNonBlank(ids: seq<string>): (r: seq<string>)
    ensures |r| <= |ids|
  {
    if |ids| == 0 then []
    else
      var last := TrimSpace(ids[|ids| - 1]);
      TrimmedNonBlank(ids[..|ids| - 1]) + (if last == "" then [] else [last])
  }

  /** An identifier as it stands after normalisation: trimmed and not blank. */
  predicate IsCleanID(x: string)
  {
    x != "" && TrimSpace(x) == x
  }

  /** `raw` contributes the identifier `x`: trimmed, it is `x`, and `x` is not blank. */
  predicate CleansTo(raw: string, x: string)
  {
    x != "" && TrimSpace(raw) == x
  }

  /** The identifiers a list subscribes to. */
  function IdSet(ids: seq<string>): set<string>
  {
    if |ids| == 0 then {}
    else
      var last := TrimSpace(ids[|ids| - 1]);
      IdSet(ids[..|ids| - 1]) + (if last == "" then {} else {last})
  }

  /** The identifiers a list subscribes to are the elements of its TrimmedNonBlank. */
  lemma {:induction false} IdSetElements(ids: seq<string>)
    ensures forall x :: x in IdSet(ids) <==> x in TrimmedNonBlank(ids)
  {
    if |ids| > 0 {
      IdSetElements(ids[..|ids| - 1]);
    }
  }

  lemma IdSetSnoc(ids: seq<string>, raw: string)
    ensures IdSet(ids + [raw]) == IdSet(ids) + (if TrimSpace(raw) == "" then {} else {TrimSpace(raw)})
  {
    assert (ids + [raw])[..|ids|] == ids;
  }

  /** Membership in TrimmedNonBlank, stated against the input list. */
  lemma {:induction false} TrimmedNonBlankMembers(ids: seq<string>)
    ensures forall x :: x in TrimmedNonBlank(ids) <==> exists i :: 0 <= i < |ids| && CleansTo(ids[i], x)
  {
    if |ids| > 0 {
      var init := ids[..|ids| - 1];
      var last := ids[|ids| - 1];
      TrimmedNonBlankMembers(init);
      assert ids == init + [last];
      forall x ensures x in TrimmedNonBlank(ids) <==> exists i :: 0 <= i < |ids| && CleansTo(ids[i], x) {
        if x in TrimmedNonBlank(ids) {
          if x in TrimmedNonBlank(init) {
            var i :| 0 <= i < |init| && CleansTo(init[i], x);
            assert CleansTo(ids[i], x);
          } else {
            assert CleansTo(ids[|ids| - 1], x);
          }
        }
        if exists i :: 0 <= i < |ids| && CleansTo(ids[i], x) {
          var i :| 0 <= i < |ids| && CleansTo(ids[i], x);
          if i < |ids| - 1 {
            assert CleansTo(init[i], x);
          }
        }
      }
    }
  }

  /** Every identifier a list subscribes to is clean. */
  lemma IdSetClean(ids: seq<string>)
    ensures forall x :: x in IdSet(ids) ==> IsCleanID(x)
  {
    IdSetElements(ids);
    TrimmedNonBlankMembers(ids);
    forall x | x in IdSet(ids) ensures IsCleanID(x) {
      var i :| 0 <= i < |ids| && CleansTo(ids[i], x);
      TrimSpaceIdempotent(ids[i]);
    }
  }

  /** A list of clean identifiers is its own TrimmedNonBlank. */
  lemma {:induction false} TrimmedNonBlankOfClean(ids: seq<string>)
    requires forall i :: 0 <= i < |ids| ==> IsCleanID(ids[i])
    ensures TrimmedNonBlank(ids) == ids
  {
    if |ids| > 0 {
      var init := ids[..|ids| - 1];
      TrimmedNonBlankOfClean(init);
      assert IsCleanID(ids[|ids| - 1]);
      assert ids == init + [ids[|ids| - 1]];
    }
  }

  /** `*` combined with specific identifiers: the one list the hub refuses. */
  predicate WildcardConflict(ids: seq<string>)
  {
    Wildcard in IdSet(ids) && IdSet(ids) != {Wildcard}
  }

  /** `r` is the normalised form of `ids`. */
  ghost predicate NormalizesTo(ids: seq<string>, r: seq<string>)
  {
    StrictlySorted(r) && forall x :: x in r <==> x in IdSet(ids)
  }

  predicate AllStrings(items: seq<Json>)
  {
    forall i :: 0 <= i < |items| ==> items[i].JString?
  }

  /** The strings of an array whose items are all strings. */
  function StringsOf(items: seq<Json>): (r: seq<string>)
    requires AllStrings(items)
    ensures |r| == |items| && forall i :: 0 <= i < |items| ==> r[i] == items[i].s
  {
    if |items| == 0 then [] else StringsOf(items[..|items| - 1]) + [items[|items| - 1].s]
  }

  lemma DecodeStep(items: seq<Json>, i: nat)
    requires i < |items| && AllStrings(items[..i]) && items[i].JString?
    ensures AllStrings(items[..i + 1])
    ensures TrimmedNonBlank(StringsOf(items[..i + 1])) ==
      TrimmedNonBlank(StringsOf(items[..i])) + (if TrimSpace(items[i].s) == "" then [] else [TrimSpace(items[i].s)])
  {
    assert items[..i + 1][..i] == items[..i];
    var xs := StringsOf(items[..i + 1]);
    assert xs == StringsOf(items[..i]) + [items[i].s];
    assert xs[..i] == StringsOf(items[..i]);
  }

  /** decodeWSChatIDs: an array of strings, trimmed, blanks dropped; anything else is refused. */
  method DecodeChatIDs(raw: Json) returns (ids: seq<string>, ok: bool)
    ensures ok <==> raw.JArray? && AllStrings(raw.items)
    ensures ok ==> ids == TrimmedNonBlank(StringsOf(raw.items))
    ensures !ok ==> ids == []
  {
    if !raw.JArray? {
      return [], false;
    }
    var items := raw.items;
    ids := [];
    var i := 0;
    while i < |items|
      invariant 0 <= i <= |items|
      invariant AllStrings(items[..i])
      invariant ids == TrimmedNonBlank(StringsOf(items[..i]))
    {
      if !items[i].JString? {
        return [], false;
      }
      var s := TrimSpace(items[i].s);
      DecodeStep(items, i);
      if s != "" {
        ids := ids + [s];
      }
      i := i + 1;
    }
    assert items[..i] == items;
    ok := true;
  }

  /** normalizeWSChatIDs: trim, drop blanks, de-duplicate, sort; `*` only on its own. */
  method NormalizeChatIDs(chatIDs: seq<string>) returns (normalized: seq<string>, valid: bool)
    ensures valid <==> !WildcardConflict(chatIDs)
    ensures valid ==> NormalizesTo(chatIDs, normalized)
    ensures !valid ==> normalized == []
  {
    if |chatIDs| == 0 {
      return [], true;
    }
    var seen: set<string> := {};
    var acc: seq<string> := [];
    var hasWildcard := false;
    var i := 0;
    while i < |chatIDs|
      invariant 0 <= i <= |chatIDs|
      invariant seen == IdSet(chatIDs[..i])
      invariant NoDuplicates(acc) && forall x :: x in acc <==> x in seen
      invariant hasWildcard <==> Wildcard in seen
    {
      var id := TrimSpace(chatIDs[i]);
      assert chatIDs[..i + 1] == chatIDs[..i] + [chatIDs[i]];
      IdSetSnoc(chatIDs[..i], chatIDs[i]);
      if id != "" {
        if id == Wildcard {
          hasWildcard := true;
        }
        if id !in seen {
          seen := seen + {id};
          acc := acc + [id];
        }
      }
      i := i + 1;
    }
    assert chatIDs[..i] == chatIDs;
    if hasWildcard {
      if |acc| != 1 || acc[0] != Wildcard {
        assert Wildcard in acc;
        var other := if acc[0] != Wildcard then acc[0] else acc[1];
        assert other in seen && other != Wildcard;
        return [], false;
      }
      assert seen == {Wildcard};
      return [Wildcard], true;
    }
    normalized := SortStrings(acc);
    valid := true;
    assert forall x :: x in normalized <==> x in multiset(acc);
  }

  /** isWSSubscribed: an empty list receives nothing; otherwise `*` or the chat itself. */
  function IsSubscribed(subscribed: seq<string>, chatID: string): (r: bool)
    ensures r <==> Wildcard in subscribed || chatID in subscribed
  {
    if |subscribed| == 0 then false
    else subscribed[0] == Wildcard || subscribed[0] == chatID || IsSubscribed(subscribed[1..], chatID)
  }

  /* ---------- properties of normalised lists ---------- */

  /** Two normalisations of the same list are equal. */
  lemma NormalizationUnique(ids: seq<string>, r1: seq<string>, r2: seq<string>)
    requires NormalizesTo(ids, r1) && NormalizesTo(ids, r2)
    ensures r1 == r2
  {
    StrictlySortedUnique(r1, r2);
  }

  /** Normalising a normalised list changes nothing, and it is never refused. */
  lemma NormalizeIdempotent(ids: seq<string>, r: seq<string>)
    requires !WildcardConflict(ids) && NormalizesTo(ids, r)
    ensures !WildcardConflict(r) && NormalizesTo(r, r)
  {
    IdSetClean(ids);
    forall i | 0 <= i < |r| ensures IsCleanID(r[i]) {
      assert r[i] in IdSet(ids);
    }
    TrimmedNonBlankOfClean(r);
    IdSetElements(r);
    assert IdSet(r) == IdSet(ids);
  }

  /** A normalised list holding `*` holds nothing else. */
  lemma WildcardStandsAlone(ids: seq<string>, r: seq<string>)
    requires !WildcardConflict(ids) && NormalizesTo(ids, r)
    requires Wildcard in r
    ensures r == [Wildcard]
  {
    assert Wildcard in IdSet(ids);
    assert IdSet(ids) == {Wildcard};
    StrictlySortedUnique(r, [Wildcard]);
  }

  /** What a connection receives after subscribing with `ids`: every chat for `*`, else exactly the listed ones. */
  lemma SubscriptionSemantics(ids: seq<string>, r: seq<string>, chatID: string)
    requires NormalizesTo(ids, r)
    ensures IsSubscribed(r, chatID) <==> (Wildcard in IdSet(ids) || chatID in IdSet(ids))
    ensures IdSet(ids) == {} ==> !IsSubscribed(r, chatID)
  {
  }

  /** Decoding the raw strings first does not change what they normalise to. */
  lemma {:induction false} DecodeThenNormalize(strs: seq<string>)
    ensures IdSet(TrimmedNonBlank(strs)) == IdSet(strs)
  {
    IdSetClean(strs);
    IdSetElements(strs);
    TrimmedNonBlankOfClean(TrimmedNonBlank(strs));
    IdSetElements(TrimmedNonBlank(strs));
  }
}
