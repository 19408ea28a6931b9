/** The registry of secrets: which variants of a secret are registered, and the cache that
    lists every registered variant once, longest first. */
module RedactionRegistry {
  import opened Text
  import opened Redaction
  import opened UrlEncoding

  // ----- Variants of a secret -----

  /** imErrorRedactionVariants: the secret, its halves when they are long enough to be
      telling, and its URL-encoded form. */
  function Variants(raw: string): seq<string> {
    var secret := TrimSpace(raw);
    if secret == "" then []
    else
      var half := |secret| / 2;
      [secret]
      + (if half > 5 then [secret[..half], secret[|secret| - half..]] else [])
      + (if QueryEscape(secret) != secret then [QueryEscape(secret)] else [])
  }

  /** What gives a secret away: the secret, one of its halves if these have more than five
      runes, or a URL-encoding. */
  predicate Betrays(v: string, secret: string) {
    || v == secret
    || (|v| == |secret| / 2 > 5 && (HasPrefix(secret, v) || HasSuffix(secret, v)))
    || Encodes(v, secret)
  }

  lemma HalvesAre(secret: string, v: string)
    ensures var half := |secret| / 2;
            (v == secret[..half] || v == secret[|secret| - half..])
            <==> |v| == half && (HasPrefix(secret, v) || HasSuffix(secret, v))
  {
    if HasPrefix(secret, v) {
      assert v == secret[..|v|];
    }
  }

  /** The variants of a secret are exactly what gives it away. */
  lemma VariantsBetray(raw: string, v: string)
    ensures v in Variants(raw) <==> !Blank(raw) && Betrays(v, TrimSpace(raw))
  {
    hide QueryEscape, TrimSpace, Encodes;
    var secret := TrimSpace(raw);
    var half := |secret| / 2;
    var encoded := QueryEscape(secret);
    EncodesExactly(v, secret);
    if secret != "" {
      var halves := if half > 5 then [secret[..half], secret[|secret| - half..]] else [];
      var others := if encoded != secret then [encoded] else [];
      assert Variants(raw) == [secret] + halves + others;
      HalvesAre(secret, v);
      assert v in Variants(raw) <==> v == secret || v in halves || v in others;
    }
  }

  /** A URL-encoding holds no star, whatever the secret holds. */
  lemma EncodedIsRemovable(raw: string, w: string)
    requires !Blank(raw) && Encodes(w, TrimSpace(raw))
    ensures w in Variants(raw) && Removable(raw, w)
  {
    hide QueryEscape, TrimSpace, Encodes;
    VariantsBetray(raw, w);
    EncodesExactly(w, TrimSpace(raw));
    assert forall i :: 0 <= i < |w| ==> w[i] != MASK;
  }

  /** No variant is blank, and the variants of a secret without a star have none. */
  lemma VariantsAreTelling(raw: string, v: string)
    requires v in Variants(raw)
    ensures exists i :: 0 <= i < |v| && !IsSpace(v[i])
    ensures StarFree(raw) ==> StarFree(v)
  {
    hide QueryEscape, TrimSpace, IsSpace;
    var secret := TrimSpace(raw);
    var before, after := TrimSpaceSplits(raw);
    if StarFree(raw) {
      assert StarFree(secret) by {
        forall i | 0 <= i < |secret|
          ensures secret[i] != MASK
        {
          assert raw[|before| + i] == secret[i];
          assert raw[|before| + i] in raw;
        }
      }
      SliceStarFree(secret, 0, |secret| / 2);
      SliceStarFree(secret, |secret| - |secret| / 2, |secret|);
    }
    var half := |secret| / 2;
    if v == secret || v == secret[..half] || v == QueryEscape(secret) {
      assert !IsSpace(v[0]);
    } else {
      assert !IsSpace(v[|v| - 1]);
    }
  }

  lemma SliceStarFree(s: string, lo: nat, hi: nat)
    requires StarFree(s) && lo <= hi <= |s|
    ensures StarFree(s[lo..hi])
  {
  }

  /** The variants of a list of secrets. */
  function VariantsOf(secrets: seq<string>): seq<string> {
    if secrets == [] then [] else VariantsOf(secrets[..|secrets| - 1]) + Variants(secrets[|secrets| - 1])
  }

  lemma {:induction false} VariantsOfMembers(secrets: seq<string>, v: string)
    ensures v in VariantsOf(secrets) <==> exists s :: s in secrets && v in Variants(s)
  {
    hide Variants;
    if secrets != [] {
      var init, last := secrets[..|secrets| - 1], secrets[|secrets| - 1];
      VariantsOfMembers(init, v);
      assert secrets == init + [last];
    }
  }

  /** The variants of a secret that are certain to be removed: those without a star, and the
      secret itself if one of its registered halves has none. */
  predicate Removable(raw: string, v: string) {
    var secret := TrimSpace(raw);
    var n := |secret| / 2;
    || StarFree(v)
    || (v == secret && n > 5 && (StarFree(secret[..n]) || StarFree(secret[|secret| - n..])))
  }

  /** The reason: a variant without a star occurs in it. */
  lemma RemovableHolds(raw: string, v: string) returns (u: string)
    requires v in Variants(raw) && Removable(raw, v)
    ensures u in Variants(raw) && StarFree(u) && Contains(v, u)
  {
    hide QueryEscape, TrimSpace, StarFree;
    var secret := TrimSpace(raw);
    var n := |secret| / 2;
    u := if StarFree(v) then v else if StarFree(secret[..n]) then secret[..n] else secret[|secret| - n..];
    if StarFree(v) {
      assert OccursAt(v, u, 0);
    } else if StarFree(secret[..n]) {
      assert Variants(raw)[1] == u;
      assert OccursAt(v, u, 0);
    } else {
      assert Variants(raw)[2] == u;
      assert OccursAt(v, u, |secret| - n);
    }
  }

  lemma WithinWithin(r: string, v: string, u: string)
    requires Contains(r, v) && Contains(v, u)
    ensures Contains(r, u)
  {
    var i :| 0 <= i <= |r| && OccursAt(r, v, i);
    var j :| 0 <= j <= |v| && OccursAt(v, u, j);
    assert r == r[..i] + v + r[i + |v|..];
    var here := r[i + j..i + j + |u|];
    forall k | 0 <= k < |u|
      ensures here[k] == u[k]
    {
      assert here[k] == v[j + k] == v[j..j + |u|][k];
    }
    assert OccursAt(r, u, i + j);
  }

  // ----- The order of the cache -----

  /** Byte order on strings, which is also rune order. */
  predicate LexLess(a: string, b: string) {
    if b == "" then false
    else if a == "" then true
    else a[0] < b[0] || (a[0] == b[0] && LexLess(a[1..], b[1..]))
  }

  /** Longer first, then lexicographically. */
  predicate Before(a: string, b: string) {
    |a| > |b| || (|a| == |b| && LexLess(a, b))
  }

  lemma {:induction false} LexLessTransitive(a: string, b: string, c: string)
    requires LexLess(a, b) && LexLess(b, c)
    ensures LexLess(a, c)
  {
    if a != "" && a[0] == b[0] == c[0] {
      LexLessTransitive(a[1..], b[1..], c[1..]);
    }
  }

  lemma {:induction false} LexLessTotal(a: string, b: string)
    ensures a != b ==> LexLess(a, b) || LexLess(b, a)
    ensures !(LexLess(a, b) && LexLess(b, a))
    ensures !LexLess(a, a)
  {
    if a != "" {
      if b != "" && a[0] == b[0] {
        assert a == [a[0]] + a[1..] && b == [b[0]] + b[1..];
        LexLessTotal(a[1..], b[1..]);
      } else {
        LexLessTotal(a[1..], a[1..]);
      }
    }
  }

  lemma BeforeIsTotalOrder(a: string, b: string, c: string)
    ensures a != b ==> Before(a, b) || Before(b, a)
    ensures !Before(a, a) && !(Before(a, b) && Before(b, a))
    ensures Before(a, b) && Before(b, c) ==> Before(a, c)
  {
    hide LexLess;
    LexLessTotal(a, b);
    if |a| == |b| == |c| && LexLess(a, b) && LexLess(b, c) {
      LexLessTransitive(a, b, c);
    }
  }

  /** Every string comes before all later ones; so no string is listed twice. */
  ghost predicate Sorted(s: seq<string>) {
    forall i, j :: 0 <= i < j < |s| ==> Before(s[i], s[j])
  }

  /** The sorted enumeration of a set is unique: the iteration order of the groups leaves no
      trace in the cache. */
  lemma {:induction false} SortedIsUnique(s: seq<string>, t: seq<string>)
    requires Sorted(s) && Sorted(t) && forall v :: v in s <==> v in t
    ensures s == t
  {
    hide Before;
    assert s != [] ==> s[0] in s;
    assert t != [] ==> t[0] in t;
    if s != [] && t != [] {
      SameHead(s, t);
      TailMembers(s);
      TailMembers(t);
      SortedIsUnique(s[1..], t[1..]);
      assert s == [s[0]] + s[1..] && t == [t[0]] + t[1..];
    }
  }

  lemma SameHead(s: seq<string>, t: seq<string>)
    requires Sorted(s) && Sorted(t) && s != [] && t != [] && s[0] in t && t[0] in s
    ensures s[0] == t[0]
  {
    hide Before;
    BeforeIsTotalOrder(s[0], t[0], s[0]);
    HeadComesFirst(s, t[0]);
    HeadComesFirst(t, s[0]);
  }

  lemma HeadComesFirst(s: seq<string>, v: string)
    requires Sorted(s) && v in s
    ensures v == s[0] || Before(s[0], v)
  {
    hide Before;
    var i :| 0 <= i < |s| && s[i] == v;
  }

  lemma TailMembers(s: seq<string>)
    requires Sorted(s) && s != []
    ensures Sorted(s[1..])
    ensures forall v :: v in s[1..] <==> v in s && v != s[0]
  {
    hide Before;
    forall v | v in s[1..]
      ensures v != s[0]
    {
      var i :| 1 <= i < |s| && s[i] == v;
      BeforeIsTotalOrder(s[0], s[i], v);
    }
  }

  /** One insertion of the sort. */
  function Insert(s: seq<string>, v: string): seq<string> {
    if s == [] || Before(v, s[0]) then [v] + s else [s[0]] + Insert(s[1..], v)
  }

  lemma {:induction false} InsertKeepsSorted(s: seq<string>, v: string)
    requires Sorted(s) && v !in s
    ensures Sorted(Insert(s, v))
    ensures forall x :: x in Insert(s, v) <==> x in s || x == v
  {
    hide Before;
    if s == [] {
    } else if Before(v, s[0]) {
      forall j | 0 <= j < |s|
        ensures Before(v, s[j])
      {
        BeforeIsTotalOrder(v, s[0], s[j]);
      }
    } else {
      TailMembers(s);
      InsertKeepsSorted(s[1..], v);
      var rest := Insert(s[1..], v);
      BeforeIsTotalOrder(v, s[0], v);
      forall j | 0 <= j < |rest|
        ensures Before(s[0], rest[j])
      {
        assert rest[j] in rest;
        if rest[j] != v {
          var i :| 0 <= i < |s[1..]| && s[1..][i] == rest[j];
          assert Before(s[0], s[i + 1]);
        }
      }
      assert s == [s[0]] + s[1..];
    }
  }

  // ----- The registry -----

  type Groups = map<string, seq<string>>

  /** The variants of the secrets of every key. */
  function GroupsOf(secrets: map<string, seq<string>>): Groups {
    map k | k in secrets :: VariantsOf(secrets[k])
  }

  /** Every variant of every group. */
  ghost predicate Registered(groups: Groups, v: string) {
    exists k :: k in groups && v in groups[k]
  }

  /** The cache lists exactly the registered variants, once each, longest first. */
  ghost predicate IsCacheOf(cache: seq<string>, groups: Groups) {
    && Sorted(cache)
    && forall v :: v in cache <==> Registered(groups, v)
  }

  lemma CacheIsDetermined(c: seq<string>, d: seq<string>, groups: Groups)
    requires IsCacheOf(c, groups) && IsCacheOf(d, groups)
    ensures c == d
  {
    hide Sorted;
    SortedIsUnique(c, d);
  }

  /** rebuildSecretCache. The groups are visited in any order; the final sort is an
      insertion sort here. */
  method RebuildSecretCache(groups: Groups) returns (cache: seq<string>)
    ensures IsCacheOf(cache, groups)
  {
    var all, seen := [], {};
    var rest := groups.Keys;
    while rest != {}
      invariant rest <= groups.Keys
      invariant forall v :: v in seen <==> v in all
      invariant Distinct(all)
      invariant forall v :: v in all <==> exists k :: k in groups && k !in rest && v in groups[k]
      decreases rest
    {
      hide Distinct;
      var k :| k in rest;
      ghost var before := all;
      all, seen := AddNew(all, seen, groups[k]);
      rest := rest - {k};
      forall v: string
        ensures v in all <==> exists k :: k in groups && k !in rest && v in groups[k]
      {
        if v in groups[k] {
          assert k in groups && k !in rest && v in groups[k];
        }
        if v in before {
          var k' :| k' in groups && k' !in rest + {k} && v in groups[k'];
          assert k' !in rest;
        }
      }
    }
    cache := SortVariants(all);
  }

  method AddNew(all: seq<string>, seen: set<string>, variants: seq<string>)
    returns (all': seq<string>, seen': set<string>)
    requires Distinct(all) && forall v :: v in seen <==> v in all
    ensures Distinct(all') && forall v :: v in seen' <==> v in all'
    ensures forall v :: v in all' <==> v in all || v in variants
  {
    all', seen' := all, seen;
    for i := 0 to |variants|
      invariant Distinct(all') && forall v :: v in seen' <==> v in all'
      invariant forall v :: v in all' <==> v in all || v in variants[..i]
    {
      var v := variants[i];
      assert forall x :: x in variants[..i + 1] <==> x in variants[..i] || x == v;
      if v in seen' {
        continue;
      }
      seen' := seen' + {v};
      all' := all' + [v];
    }
    assert variants[..|variants|] == variants;
  }

  method SortVariants(all: seq<string>) returns (sorted: seq<string>)
    requires Distinct(all)
    ensures Sorted(sorted) && forall v :: v in sorted <==> v in all
  {
    hide Sorted;
    sorted := [];
    SortedNothing();
    for i := 0 to |all|
      invariant Sorted(sorted) && forall v :: v in sorted <==> v in all[..i]
    {
      assert all[i] !in all[..i];
      assert forall x :: x in all[..i + 1] <==> x in all[..i] || x == all[i];
      InsertKeepsSorted(sorted, all[i]);
      sorted := Insert(sorted, all[i]);
    }
    assert all[..|all|] == all;
  }

  lemma SortedNothing()
    ensures Sorted([])
  {
  }

  lemma RegisteredVariant(secrets: map<string, seq<string>>, k: string, raw: string, v: string)
    requires k in secrets && raw in secrets[k] && v in Variants(raw)
    ensures Registered(GroupsOf(secrets), v) && v != ""
  {
    hide Variants, VariantsOf;
    VariantsAreTelling(raw, v);
    VariantsOfMembers(secrets[k], v);
    assert v in GroupsOf(secrets)[k];
  }

  /** A removable variant is gone from every text, whatever else is registered. */
  lemma RemovableIsGone(secrets: map<string, seq<string>>, cache: seq<string>, text: string,
                        k: string, raw: string, v: string)
    requires k in secrets && raw in secrets[k] && IsCacheOf(cache, GroupsOf(secrets))
    requires v in Variants(raw) && Removable(raw, v)
    ensures !Contains(MaskEach(text, cache), v)
  {
    hide Variants, Contains, MaskEach, Removable, Sorted, GroupsOf, Registered;
    var u := RemovableHolds(raw, v);
    RegisteredVariant(secrets, k, raw, u);
    RedactionIsComplete(text, cache, u);
    if Contains(MaskEach(text, cache), v) {
      WithinWithin(MaskEach(text, cache), v, u);
    }
  }

  lemma BlankHoldsNoVariant(text: string, s: string, v: string)
    requires AllSpace(text) && v in Variants(s)
    ensures !Contains(text, v)
  {
    hide Variants, IsSpace;
    VariantsAreTelling(s, v);
    var i :| 0 <= i < |v| && !IsSpace(v[i]);
    forall j: nat
      ensures !OccursAt(text, v, j)
    {
      assert j + |v| <= |text| ==> text[j..j + |v|][i] == text[j + i];
    }
  }

  class Registry {
    var groups: Groups
    var cache: seq<string>
    ghost var secrets: map<string, seq<string>>  // the secrets last set for every key that has any

    constructor ()
      ensures Valid() && secrets == map[]
    {
      groups, cache, secrets := map[], [], map[];
    }

    ghost predicate Valid()
      reads this
    {
      groups == GroupsOf(secrets) && IsCacheOf(cache, groups)
    }

    /** SetIMErrorSecrets */
    method SetSecrets(key: string, newSecrets: seq<string>)
      requires Valid()
      modifies this
      ensures Valid()
      ensures secrets == if VariantsOf(newSecrets) == [] then old(secrets) - {key} else old(secrets)[key := newSecrets]
    {
      hide Variants, IsCacheOf, VariantsOf, Sorted, Registered;
      var variants := CollectVariants(newSecrets);
      if |variants| == 0 {
        secrets := secrets - {key};
        if key !in groups {
          return;
        }
        groups := groups - {key};
      } else {
        secrets := secrets[key := newSecrets];
        if key in groups && groups[key] == variants {
          return;
        }
        groups := groups[key := variants];
      }
      cache := RebuildSecretCache(groups);
    }

    method CollectVariants(newSecrets: seq<string>) returns (variants: seq<string>)
      ensures variants == VariantsOf(newSecrets)
    {
      hide Variants;
      variants := [];
      for i := 0 to |newSecrets|
        invariant variants == VariantsOf(newSecrets[..i])
      {
        assert newSecrets[..i + 1][..i] == newSecrets[..i];
        variants := variants + Variants(newSecrets[i]);
      }
      assert newSecrets[..|newSecrets|] == newSecrets;
    }

    lemma BlankIsLeft(text: string)
      requires Valid() && AllSpace(text)
      ensures MaskEach(text, cache) == text
    {
      hide Variants, VariantsOf, IsSpace, Sorted, MaskAll, MaskEach;
      forall v | v in cache
        ensures MaskAll(text, v) == text
      {
        var k :| k in groups && v in groups[k];
        VariantsOfMembers(secrets[k], v);
        var s :| s in secrets[k] && v in Variants(s);
        BlankHoldsNoVariant(text, s, v);
        MaskAllSkips(text, v);
      }
      MaskEachSkips(text, cache);
    }

    lemma MaskedIsExplained(text: string, i: nat)
      requires Valid() && i < |text| == |MaskEach(text, cache)| && MaskEach(text, cache)[i] != text[i]
      ensures exists v :: Registered(groups, v) && Explains(text, v, i)
    {
      hide MaskEach, Explains, Registered, Sorted, VariantsOf;
      RedactionIsPrecise(text, cache, i);
      var v :| v in cache && Explains(text, v, i);
      assert Registered(groups, v);
    }

    /** RedactIMErrorText. The text keeps its length and only gains masks. Of every registered
        secret each removable variant is gone, whatever else is registered. What was masked is
        within a place that a registered variant fits, up to its own stars. */
    method Redact(text: string) returns (r: string)
      requires Valid()
      ensures r == MaskEach(text, cache) && Masks(r, text)
      ensures forall k, s, v ::
                k in secrets && s in secrets[k] && !Blank(s) && Betrays(v, TrimSpace(s)) && Removable(s, v) ==>
                  !Contains(r, v)
      ensures forall k, s, w ::
                k in secrets && s in secrets[k] && !Blank(s) && Encodes(w, TrimSpace(s)) ==> !Contains(r, w)
      ensures forall i :: 0 <= i < |text| && r[i] != text[i] ==>
                exists v :: Registered(groups, v) && Explains(text, v, i)
    {
      hide MaskAll, Contains, Variants, Explains, Removable, Registered, Betrays, Encodes;
      r := text;
      if TrimSpace(text) == "" {
        BlankIffAllSpace(text);
        BlankIsLeft(text);
      } else {
        for i := 0 to |cache|
          invariant r == MaskEach(text, cache[..i])
        {
          assert cache[..i + 1][..i] == cache[..i];
          r := MaskAll(r, cache[i]);
        }
        assert cache[..|cache|] == cache;
      }
      MaskEachMasks(text, cache);
      forall k, s, v |
        k in secrets && s in secrets[k] && !Blank(s) && Betrays(v, TrimSpace(s)) && Removable(s, v)
        ensures !Contains(r, v)
      {
        VariantsBetray(s, v);
        RemovableIsGone(secrets, cache, text, k, s, v);
      }
      forall k, s, w | k in secrets && s in secrets[k] && !Blank(s) && Encodes(w, TrimSpace(s))
        ensures !Contains(r, w)
      {
        EncodedIsRemovable(s, w);
        RemovableIsGone(secrets, cache, text, k, s, w);
      }
      forall i | 0 <= i < |text| && r[i] != text[i]
        ensures exists v :: Registered(groups, v) && Explains(text, v, i)
      {
        MaskedIsExplained(text, i);
      }
    }
  }
}
