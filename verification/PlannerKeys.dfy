/** The keys of a list of proposed tasks: duplicates are renamed after their positions, and a new
    name can be taken only by an earlier task's own key. */
module PlannerKeys {
  import opened Text

  /** A task as decoded from the model's JSON. */
  datatype PlannerTask = PlannerTask(
    key: string, title: string, description: string, agentID: string, dependsOn: seq<string>)

  // ----- Keys -----

  /** The key a task asks for: its own, or one made from its position. */
  function OwnKey(tasks: seq<PlannerTask>, i: nat): string
    requires i < |tasks|
  {
    var key := TrimSpace(tasks[i].key);
    if key == "" then "task-" + Decimal(i + 1) else key
  }

  /** The key a duplicate is renamed to. */
  function Renamed(tasks: seq<PlannerTask>, i: nat): string
    requires i < |tasks|
  {
    OwnKey(tasks, i) + "-" + Decimal(i + 1)
  }

  /** The keys given to the first n tasks. */
  function AssignedKeys(tasks: seq<PlannerTask>, n: nat): (keys: seq<string>)
    requires n <= |tasks|
    ensures |keys| == n
  {
    if n == 0 then []
    else
      var earlier := AssignedKeys(tasks, n - 1);
      earlier + [if OwnKey(tasks, n - 1) in earlier then Renamed(tasks, n - 1) else OwnKey(tasks, n - 1)]
  }

  /** The key is that of an earlier task's own. */
  predicate OwnedBefore(tasks: seq<PlannerTask>, i: nat, key: string)
    requires i <= |tasks|
  {
    exists j :: 0 <= j < i && OwnKey(tasks, j) == key
  }

  /** A task whose own key is an earlier task's own, or what an earlier duplicate was renamed to. */
  predicate Duplicate(tasks: seq<PlannerTask>, i: nat)
    requires i < |tasks|
  {
    || OwnedBefore(tasks, i, OwnKey(tasks, i))
    || exists j :: 0 <= j < i && Duplicate(tasks, j) && Renamed(tasks, j) == OwnKey(tasks, i)
  }

  /** Some duplicate's new name is an earlier task's own key. */
  predicate RenameCollides(tasks: seq<PlannerTask>) {
    exists i :: 0 <= i < |tasks| && Duplicate(tasks, i) && OwnedBefore(tasks, i, Renamed(tasks, i))
  }

  // ----- New names tell their positions -----

  lemma {:induction false} DecimalTells(m: nat, n: nat)
    requires Decimal(m) == Decimal(n)
    ensures m == n
  {
    var a, b := Decimal(m), Decimal(n);
    LastDigit(m);
    LastDigit(n);
    if m >= 10 && n >= 10 {
      assert Decimal(m / 10) == a[..|a| - 1] && Decimal(n / 10) == b[..|b| - 1];
      DecimalTells(m / 10, n / 10);
    }
  }

  lemma LastDigit(n: nat)
    ensures var r := Decimal(n);
            && r[|r| - 1] as int == '0' as int + n % 10
            && (|r| == 1 <==> n < 10)
            && (n >= 10 ==> r[..|r| - 1] == Decimal(n / 10))
  {
  }

  lemma SuffixTells(a: string, m: nat, b: string, n: nat)
    requires a + "-" + Decimal(m) == b + "-" + Decimal(n)
    ensures m == n
  {
    hide Decimal;
    var s, x, y := a + "-" + Decimal(m), Decimal(m), Decimal(n);
    DashBefore(a, x);
    DashBefore(b, y);
    assert |x| == |y|;
    assert x == s[|s| - |x|..] == y;
    DecimalTells(m, n);
  }

  /** Counted from the end, the first dash is the one before the digits. */
  lemma DashBefore(a: string, x: string)
    requires forall i :: 0 <= i < |x| ==> x[i] != '-'
    ensures var s := a + "-" + x;
            && s[|s| - 1 - |x|] == '-' && (forall k :: |s| - |x| <= k < |s| ==> s[k] != '-')
  {
    var s := a + "-" + x;
    assert forall k :: |s| - |x| <= k < |s| ==> s[k] == x[k - |s| + |x|];
  }

  /** No two tasks are renamed to the same key. */
  lemma RenamedApart(tasks: seq<PlannerTask>, i: nat, j: nat)
    requires i < |tasks| && j < |tasks| && Renamed(tasks, i) == Renamed(tasks, j)
    ensures i == j
  {
    hide OwnKey, Decimal;
    SuffixTells(OwnKey(tasks, i), i + 1, OwnKey(tasks, j), j + 1);
  }

  // ----- The keys that are taken -----

  /** The keys given to the first tasks are their own and what the duplicates are renamed to. */
  lemma {:induction false} TakenKeys(tasks: seq<PlannerTask>, n: nat, key: string)
    requires n <= |tasks|
    ensures key in AssignedKeys(tasks, n) <==>
            || OwnedBefore(tasks, n, key)
            || exists j :: 0 <= j < n && Duplicate(tasks, j) && Renamed(tasks, j) == key
    decreases n
  {
    hide OwnKey, Renamed, Duplicate, AssignedKeys;
    AssignedKeysStep(tasks, n);
    if n > 0 {
      TakenKeys(tasks, n - 1, key);
      TakenKeys(tasks, n - 1, OwnKey(tasks, n - 1));
      DuplicateIs(tasks, n - 1);
      OwnedStep(tasks, n - 1, key);
    }
  }

  lemma OwnedStep(tasks: seq<PlannerTask>, i: nat, key: string)
    requires i < |tasks|
    ensures OwnedBefore(tasks, i + 1, key) <==> OwnedBefore(tasks, i, key) || OwnKey(tasks, i) == key
  {
    hide OwnKey;
  }

  lemma DuplicateIs(tasks: seq<PlannerTask>, i: nat)
    requires i < |tasks|
    ensures Duplicate(tasks, i) <==>
            || OwnedBefore(tasks, i, OwnKey(tasks, i))
            || exists j :: 0 <= j < i && Duplicate(tasks, j) && Renamed(tasks, j) == OwnKey(tasks, i)
  {
    hide OwnKey, Renamed, OwnedBefore;
  }

  /** Duplicates are the tasks whose own key is taken, and their new name is taken only if it is
      an earlier task's own. */
  lemma RenamesCollideWithOwn(tasks: seq<PlannerTask>, i: nat)
    requires i < |tasks|
    ensures Duplicate(tasks, i) <==> OwnKey(tasks, i) in AssignedKeys(tasks, i)
    ensures Renamed(tasks, i) in AssignedKeys(tasks, i) <==> OwnedBefore(tasks, i, Renamed(tasks, i))
  {
    hide OwnKey, Renamed, Duplicate, AssignedKeys, OwnedBefore;
    TakenKeys(tasks, i, OwnKey(tasks, i));
    DuplicateIs(tasks, i);
    TakenKeys(tasks, i, Renamed(tasks, i));
    forall j | 0 <= j < i
      ensures Renamed(tasks, j) != Renamed(tasks, i)
    {
      if Renamed(tasks, j) == Renamed(tasks, i) {
        RenamedApart(tasks, i, j);
      }
    }
  }

  lemma {:induction false} AssignedKeysGrow(tasks: seq<PlannerTask>, n: nat, m: nat)
    requires n <= m <= |tasks|
    ensures AssignedKeys(tasks, n) == AssignedKeys(tasks, m)[..n]
    decreases m
  {
    hide OwnKey, Renamed;
    if n < m {
      AssignedKeysGrow(tasks, n, m - 1);
    }
  }

  lemma NotTaken(tasks: seq<PlannerTask>, i: nat)
    requires i < |tasks|
    ensures GivenKey(tasks, i) in AssignedKeys(tasks, i) <==>
            OwnKey(tasks, i) in AssignedKeys(tasks, i) && Renamed(tasks, i) in AssignedKeys(tasks, i)
  {
    hide OwnKey, Renamed, AssignedKeys;
  }

  /** Keys are unique exactly when no renaming collides. */
  lemma {:induction false} KeysAreUnique(tasks: seq<PlannerTask>, n: nat)
    requires n <= |tasks|
    ensures Distinct(AssignedKeys(tasks, n)) <==>
            forall i :: 0 <= i < n && Duplicate(tasks, i) ==> !OwnedBefore(tasks, i, Renamed(tasks, i))
  {
    hide OwnKey, Renamed, AssignedKeys, Distinct, Duplicate, OwnedBefore;
    AssignedKeysStep(tasks, n);
    if n == 0 {
    } else {
      KeysAreUnique(tasks, n - 1);
      RenamesCollideWithOwn(tasks, n - 1);
      NotTaken(tasks, n - 1);
      DistinctSnoc(AssignedKeys(tasks, n - 1), GivenKey(tasks, n - 1));
    }
  }

  /** The key given to task i, after those before it. */
  function GivenKey(tasks: seq<PlannerTask>, i: nat): string
    requires i < |tasks|
  {
    if OwnKey(tasks, i) in AssignedKeys(tasks, i) then Renamed(tasks, i) else OwnKey(tasks, i)
  }

  lemma AssignedKeysStep(tasks: seq<PlannerTask>, n: nat)
    requires n <= |tasks|
    ensures n == 0 ==> Distinct(AssignedKeys(tasks, n))
    ensures n > 0 ==> AssignedKeys(tasks, n) == AssignedKeys(tasks, n - 1) + [GivenKey(tasks, n - 1)]
  {
    hide OwnKey, Renamed;
  }

  lemma DistinctSnoc(s: seq<string>, v: string)
    ensures Distinct(s + [v]) <==> Distinct(s) && v !in s
  {
    var t := s + [v];
    assert t[|s|] == v && t[..|s|] == s;
    if Distinct(t) {
      forall i, j | 0 <= i < j < |s|
        ensures s[i] != s[j]
      {
        assert t[i] != t[j];
      }
      forall i | 0 <= i < |s|
        ensures s[i] != v
      {
        assert t[i] != t[|s|];
      }
    }
  }

  /** A collision happens: the third of these tasks is renamed to the key of the first. */
  lemma RenamingCanCollide(rest: PlannerTask)
    ensures RenameCollides([rest.(key := "a-3"), rest.(key := "a"), rest.(key := "a")])
  {
    var tasks := [rest.(key := "a-3"), rest.(key := "a"), rest.(key := "a")];
    hide Decimal, TrimSpace;
    TrimSpaceIdempotent("a-3");
    TrimSpaceIdempotent("a");
    assert Renamed(tasks, 2) == "a-3" by {
      DecimalOfThree();
      assert "a" + "-" + "3" == "a-3";
    }
    assert OwnKey(tasks, 0) == "a-3" && OwnKey(tasks, 1) == "a" && OwnKey(tasks, 2) == "a";
    assert OwnedBefore(tasks, 2, "a") && OwnedBefore(tasks, 2, "a-3");
  }

  lemma DecimalOfThree()
    ensures Decimal(3) == "3"
  {
  }
}
