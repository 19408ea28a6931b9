/** Which variants of a secret are certain to be removed from every text, whatever else is
    registered: exactly the removable ones. A star can be completed by the mask of another
    secret. */
module RedactionTheorems {
  import opened Text
  import opened Redaction
  import opened UrlEncoding
  import opened RedactionRegistry

  /** A rune to register as a secret of its own, so that its mask completes another one: no
      mask, no space, and neither it nor its encoding occurs in the secret. */
  predicate StandIn(c: char, raw: string) {
    var secret, encoded := TrimSpace(raw), QueryEscape([c]);
    && c != MASK && !IsSpace(c) && c !in secret
    && (encoded == [c] || (c !in encoded && !Contains(secret, encoded)))
  }

  /** The text that the mask of c turns into v. */
  function Disguised(v: string, c: char): (text: string)
    ensures |text| == |v|
  {
    seq(|v|, i requires 0 <= i < |v| => if v[i] == MASK then c else v[i])
  }

  /** The secrets registered for it. */
  function Pair(raw: string, c: char): map<string, seq<string>> {
    map["key" := [raw, [c]]]
  }

  // ----- Encodings are long -----

  lemma {:induction false} EscapeGrows(s: string)
    ensures |QueryEscape(s)| >= |s|
    ensures !StarFree(s) ==> |QueryEscape(s)| > |s|
  {
    hide Utf8, EscapeBytes;
    if s != "" {
      EscapeGrows(s[1..]);
      StarEscapes(s[0]);
    }
  }

  lemma StarEscapes(c: char)
    ensures |EscapeBytes(Utf8(c))| >= 1 && (c == MASK ==> |EscapeBytes(Utf8(c))| >= 3)
  {
    if c == MASK {
      assert Utf8(c) == [c as int];
      assert EscapeBytes(Utf8(c)) == EscapeByte(c as int) + EscapeBytes(Utf8(c)[1..]);
    }
  }

  lemma PlainIsStarFree(s: string)
    requires Plain(s)
    ensures StarFree(s)
  {
  }

  // ----- The variants of a secret within one another -----

  /** A variant that has a star is part of the secret. */
  lemma StarredIsPart(raw: string, v: string)
    requires v in Variants(raw) && !StarFree(v)
    ensures var secret := TrimSpace(raw);
            && Contains(secret, v) && |v| <= |secret| < |QueryEscape(secret)|
            && forall i :: 0 <= i < |v| ==> v[i] in secret
  {
    hide QueryEscape, TrimSpace;
    var secret := TrimSpace(raw);
    var n := |secret| / 2;
    PlainIsStarFree(QueryEscape(secret));
    assert v == secret || v == secret[..n] || v == secret[|secret| - n..];
    assert OccursAt(secret, v, 0) || OccursAt(secret, v, |secret| - n);
    EscapeGrows(secret);
  }

  lemma SameLength(v: string, u: string)
    requires Contains(v, u) && |u| >= |v|
    ensures u == v
  {
  }

  lemma HasStar(raw: string, v: string)
    requires !Removable(raw, v)
    ensures !StarFree(v)
  {
  }

  /** No variant without a star occurs in one that is not removable. */
  lemma NothingInside(raw: string, v: string, u: string)
    requires v in Variants(raw) && u in Variants(raw) && !Removable(raw, v) && StarFree(u)
    ensures !Contains(v, u)
  {
    hide QueryEscape, TrimSpace, StarFree, Contains;
    StarredIsPart(raw, v);
    if Contains(v, u) && |u| >= |v| {
      SameLength(v, u);
    }
  }

  // ----- Nothing else occurs in the disguise -----

  lemma NotInDisguise(v: string, c: char, u: string)
    requires c != MASK && u != ""
    requires MASK in u || |u| > |v| || (c !in u && !Contains(v, u))
    ensures !Contains(Disguised(v, c), u)
  {
    var text := Disguised(v, c);
    forall j | 0 <= j <= |text|
      ensures !OccursAt(text, u, j)
    {
      if OccursAt(text, u, j) {
        forall k | 0 <= k < |u|
          ensures u[k] == text[j + k]
        {
          assert text[j..j + |u|][k] == text[j + k];
        }
        if c !in u {
          assert v[j..j + |u|] == u;
          assert OccursAt(v, u, j);
        }
      }
    }
  }

  lemma DisguiseComesOff(v: string, c: char)
    requires c != MASK && c !in v
    ensures MaskAll(Disguised(v, c), [c]) == v
  {
    MaskAllRune(Disguised(v, c), c);
  }

  // ----- The cache of the two secrets -----

  predicate Cached(raw: string, c: char, u: string) {
    u in Variants(raw) || u == [c] || u == QueryEscape([c])
  }

  lemma PairVariants(raw: string, c: char, u: string)
    requires !IsSpace(c)
    ensures Registered(GroupsOf(Pair(raw, c)), u) <==> Cached(raw, c, u)
  {
    hide Variants, TrimSpace, QueryEscape;
    var secrets := Pair(raw, c);
    VariantsOfMembers([raw, [c]], u);
    RuneVariants(c);
    assert forall s :: s in [raw, [c]] <==> s == raw || s == [c];
    assert GroupsOf(secrets)["key"] == VariantsOf([raw, [c]]);
  }

  lemma RuneVariants(c: char)
    requires !IsSpace(c)
    ensures forall u :: u in Variants([c]) <==> u == [c] || u == QueryEscape([c])
  {
    hide QueryEscape, TrimSpace;
    TrimSpaceIdempotent([c]);
  }

  /** An entry of the cache, other than the stand-in, leaves both the disguise and the variant
      alone; of the variant's own length or more it need not matter. */
  lemma EntrySkips(raw: string, c: char, v: string, u: string)
    requires StandIn(c, raw) && v in Variants(raw) && !Removable(raw, v) && Cached(raw, c, u) && u != [c]
    ensures MaskAll(Disguised(v, c), u) == Disguised(v, c)
    ensures |u| <= 1 ==> MaskAll(v, u) == v
  {
    hide QueryEscape, TrimSpace, MaskAll, Variants, Contains, Removable, Disguised;
    EntryAbsent(raw, c, v, u);
    MaskAllSkips(Disguised(v, c), u);
    if |u| <= 1 && !Contains(v, u) {
      MaskAllSkips(v, u);
    } else if |u| <= 1 {
      assert u == [MASK];
      MaskAllRune(v, MASK);
      assert MaskAll(v, u) == v;
    }
  }

  lemma EntryAbsent(raw: string, c: char, v: string, u: string)
    requires StandIn(c, raw) && v in Variants(raw) && !Removable(raw, v) && Cached(raw, c, u) && u != [c]
    ensures u != "" && !Contains(Disguised(v, c), u)
    ensures StarFree(u) ==> !Contains(v, u)
  {
    hide QueryEscape, TrimSpace, Variants, Contains, Disguised;
    var secret := TrimSpace(raw);
    StarredIsPart(raw, v);
    if u in Variants(raw) {
      VariantsAreTelling(raw, u);
      if StarFree(u) {
        NothingInside(raw, v, u);
        VariantRunes(raw, u);
      }
    } else {
      if Contains(v, u) {
        WithinWithin(secret, v, u);
      }
    }
    NotInDisguise(v, c, u);
  }

  /** A variant that is not the encoding has only runes of the secret. */
  lemma VariantRunes(raw: string, u: string)
    requires u in Variants(raw)
    ensures var secret := TrimSpace(raw); u == QueryEscape(secret) || forall i :: 0 <= i < |u| ==> u[i] in secret
  {
    hide QueryEscape, TrimSpace;
  }

  /** The cache masks the disguise back to the variant. */
  lemma DisguiseBecomesVariant(raw: string, c: char, v: string, cache: seq<string>)
    requires StandIn(c, raw) && v in Variants(raw) && !Removable(raw, v)
    requires IsCacheOf(cache, GroupsOf(Pair(raw, c)))
    ensures MaskEach(Disguised(v, c), cache) == v
  {
    hide *;
    var i := EntryOf(raw, c, cache);
    var earlier, later := cache[..i], cache[i + 1..];
    HasStar(raw, v);
    StarredIsPart(raw, v);
    forall u | u in earlier
      ensures MaskAll(Disguised(v, c), u) == Disguised(v, c)
    {
      EntrySkips(raw, c, v, u);
    }
    forall u | u in later
      ensures MaskAll(v, u) == v
    {
      EntrySkips(raw, c, v, u);
    }
    MaskEachSkips(Disguised(v, c), earlier);
    ThenMask(v, c, raw);
    MaskEachSkips(v, later);
    assert cache == earlier + [[c]] + later;
    MaskEachAppend(Disguised(v, c), earlier + [[c]], later);
    MaskEachAppend(Disguised(v, c), earlier, [[c]]);
    MaskEachOne(Disguised(v, c), [c]);
  }

  lemma ThenMask(v: string, c: char, raw: string)
    requires StandIn(c, raw) && forall i :: 0 <= i < |v| ==> v[i] in TrimSpace(raw)
    ensures MaskAll(Disguised(v, c), [c]) == v
  {
    hide TrimSpace, QueryEscape, MaskAll;
    DisguiseComesOff(v, c);
  }

  lemma MaskEachOne(text: string, u: string)
    ensures MaskEach(text, [u]) == MaskAll(text, u)
  {
    assert [u][..0] == [];
  }

  /** The stand-in is in the cache; the entries after it are no longer than it. */
  lemma EntryOf(raw: string, c: char, cache: seq<string>) returns (i: nat)
    requires StandIn(c, raw) && IsCacheOf(cache, GroupsOf(Pair(raw, c)))
    ensures i < |cache| && cache[i] == [c]
    ensures forall u :: u in cache[..i] ==> u != [c] && Cached(raw, c, u)
    ensures forall u :: u in cache[i + 1..] ==> u != [c] && Cached(raw, c, u) && |u| <= 1
  {
    hide QueryEscape, TrimSpace, Variants, LexLess, Registered, GroupsOf, Pair;
    PairVariants(raw, c, [c]);
    i :| 0 <= i < |cache| && cache[i] == [c];
    forall u | u in cache
      ensures Cached(raw, c, u)
    {
      PairVariants(raw, c, u);
    }
    BeforeIsTotalOrder([c], [c], [c]);
    hide Cached;
    forall u | u in cache[..i]
      ensures u != [c] && Cached(raw, c, u)
    {
      var j :| 0 <= j < i && cache[j] == u;
      assert Before(cache[j], cache[i]);
    }
    forall u | u in cache[i + 1..]
      ensures u != [c] && Cached(raw, c, u) && |u| <= 1
    {
      var j :| i < j < |cache| && cache[j] == u;
      assert Before(cache[i], cache[j]);
    }
  }

  // ----- The theorem -----

  /** The secret is registered under some key. */
  predicate Holds(secrets: map<string, seq<string>>, raw: string) {
    exists k :: k in secrets && raw in secrets[k]
  }

  /** v is gone from every text, whatever else is registered. */
  ghost predicate Certain(raw: string, v: string) {
    forall secrets, cache, text ::
      Holds(secrets, raw) && IsCacheOf(cache, GroupsOf(secrets)) ==> !Contains(MaskEach(text, cache), v)
  }

  /** The entries of a list in the order of the cache. */
  function Ordered(all: seq<string>): seq<string> {
    if all == [] then []
    else
      var earlier := Ordered(all[..|all| - 1]);
      if all[|all| - 1] in earlier then earlier else Insert(earlier, all[|all| - 1])
  }

  lemma {:induction false} OrderedIsSorted(all: seq<string>)
    ensures Sorted(Ordered(all)) && forall v :: v in Ordered(all) <==> v in all
  {
    hide Sorted, Insert;
    if all == [] {
      SortedNothing();
    } else {
      var init, last := all[..|all| - 1], all[|all| - 1];
      OrderedIsSorted(init);
      assert all == init + [last];
      if last !in Ordered(init) {
        InsertKeepsSorted(Ordered(init), last);
      }
    }
  }

  lemma PairHasCache(raw: string, c: char) returns (cache: seq<string>)
    ensures IsCacheOf(cache, GroupsOf(Pair(raw, c))) && Holds(Pair(raw, c), raw)
  {
    hide Sorted, VariantsOf, Ordered;
    var secrets := Pair(raw, c);
    cache := Ordered(VariantsOf(secrets["key"]));
    OrderedIsSorted(VariantsOf(secrets["key"]));
    assert GroupsOf(secrets).Keys == {"key"};
    assert raw == secrets["key"][0];
  }

  lemma RemovableIsCertain(raw: string, v: string)
    requires v in Variants(raw) && Removable(raw, v)
    ensures Certain(raw, v)
  {
    hide Variants, Contains, MaskEach, Removable, IsCacheOf, GroupsOf;
    forall secrets, cache, text | Holds(secrets, raw) && IsCacheOf(cache, GroupsOf(secrets))
      ensures !Contains(MaskEach(text, cache), v)
    {
      var k :| k in secrets && raw in secrets[k];
      RemovableIsGone(secrets, cache, text, k, raw, v);
    }
  }

  /** A variant of a registered secret is certain to be removed from every text, whatever else
      is registered, if and only if it is removable: it has no star, or it is the secret itself
      and one of its registered halves has none. */
  lemma CertainExactly(raw: string, v: string, c: char)
    requires v in Variants(raw) && StandIn(c, raw)
    ensures Certain(raw, v) <==> Removable(raw, v)
  {
    hide Variants, StandIn, Removable, Contains, MaskEach, IsCacheOf, GroupsOf, Pair, Holds;
    if Removable(raw, v) {
      RemovableIsCertain(raw, v);
    } else {
      var cache := PairHasCache(raw, c);
      DisguiseBecomesVariant(raw, c, v, cache);
      HoldsItself(v);
      var secrets, text := Pair(raw, c), Disguised(v, c);
      assert Contains(MaskEach(text, cache), v) && Holds(secrets, raw) && IsCacheOf(cache, GroupsOf(secrets));
    }
  }

  lemma HoldsItself(v: string)
    ensures Contains(v, v)
  {
    assert OccursAt(v, v, 0);
  }

  /** Any unreserved rune that the secret lacks will do. */
  lemma UnreservedStandsIn(raw: string, c: char)
    requires Unreserved(c as int) && c !in TrimSpace(raw)
    ensures StandIn(c, raw)
  {
    hide TrimSpace;
    assert Utf8(c) == [c as int];
    assert EscapeBytes(Utf8(c)) == EscapeByte(c as int) + EscapeBytes(Utf8(c)[1..]);
    assert QueryEscape([c]) == EscapeBytes(Utf8(c)) + QueryEscape([c][1..]);
  }

  // ----- It happens -----

  /** A registry in which two secrets have been set, and a text from which it does not remove a
      variant of the first. */
  method VariantSurvives(raw: string, v: string, c: char) returns (registry: Registry, text: string, r: string)
    requires v in Variants(raw) && StandIn(c, raw) && !Removable(raw, v)
    ensures registry.Valid() && registry.secrets == Pair(raw, c)
    ensures text == Disguised(v, c) && r == MaskEach(text, registry.cache) == v
  {
    hide Variants, StandIn, Removable, MaskEach, Registered, Sorted, Disguised;
    registry := new Registry();
    SomeVariant(raw, v, c);
    registry.SetSecrets("key", [raw, [c]]);
    text := Disguised(v, c);
    DisguiseBecomesVariant(raw, c, v, registry.cache);
    r := registry.Redact(text);
  }

  lemma SomeVariant(raw: string, v: string, c: char)
    requires v in Variants(raw)
    ensures VariantsOf([raw, [c]]) != []
  {
    hide Variants;
    VariantsOfMembers([raw, [c]], v);
    assert [raw, [c]][0] == raw;
  }

  /** With the secrets "a*b" and "c" registered, "acb" is turned into the first of them. */
  method StarredSecretAppears() returns (registry: Registry, r: string)
    ensures registry.Valid() && registry.secrets == Pair("a*b", 'c')
    ensures r == MaskEach("acb", registry.cache) == "a*b"
  {
    hide Variants, StandIn, Removable, MaskEach, Registered, Sorted;
    Example();
    var text;
    registry, text, r := VariantSurvives("a*b", "a*b", 'c');
  }

  lemma Example()
    ensures "a*b" in Variants("a*b") && StandIn('c', "a*b") && !Removable("a*b", "a*b")
    ensures Disguised("a*b", 'c') == "acb"
  {
    hide QueryEscape;
    TrimSpaceIdempotent("a*b");
    assert Variants("a*b")[0] == "a*b";
    assert "a*b"[1] == MASK;
    UnreservedStandsIn("a*b", 'c');
  }

  /** A secret with a star that is certain to be removed all the same: its first half has none. */
  lemma HalfSavesSecret()
    ensures Certain("abcdef*ghijkl", "abcdef*ghijkl")
  {
    hide *;
    var s := "abcdef*ghijkl";
    TrimmedExample();
    OwnVariant(s);
    HalfRemovable(s, s[..6]);
    RemovableIsCertain(s, s);
  }

  lemma TrimmedExample()
    ensures |"abcdef*ghijkl"| == 13
    ensures StarFree("abcdef*ghijkl"[..6])
    ensures TrimSpace("abcdef*ghijkl") == "abcdef*ghijkl"
  {
    hide TrimSpace;
    var s := "abcdef*ghijkl";
    assert s[0] == 'a' && s[12] == 'l';
    TrimSpaceIdempotent(s);
    assert s[..6] == "abcdef";
  }

  lemma OwnVariant(s: string)
    requires s != "" && TrimSpace(s) == s
    ensures s in Variants(s)
  {
    hide QueryEscape, TrimSpace;
    assert Variants(s)[0] == s;
  }

  lemma HalfRemovable(s: string, half: string)
    requires |s| >= 12 && half == s[..|s| / 2] && StarFree(half) && TrimSpace(s) == s
    ensures Removable(s, s)
  {
    hide TrimSpace, StarFree;
  }
}
