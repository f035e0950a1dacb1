/**
 * `ContributorsAPI.mergeContributorData`: two per-repository contributor
 * lists are folded into an insertion-ordered map keyed by login, the map's
 * values are sorted by total contributions (descending, stable) and each
 * position receives its 1-based rank.
 */
module ContributorMerge {

  /** One record of a repository's contributors endpoint. */
  datatype GitHubContributor = GitHubContributor(
    login: string,
    id: int,
    avatarUrl: string,
    htmlUrl: string,
    contributions: int)

  /** One row of the merged, ranked table. */
  datatype ContributorData = ContributorData(
    login: string,
    avatarUrl: string,
    htmlUrl: string,
    frameworkContributions: int,
    skeletonContributions: int,
    totalContributions: int,
    rank: int)

  /*
   * Logins, membership and the per-login views of an input list.
   * Lists are taken apart at their LAST element, the way the source's
   * `for ... of` loops have consumed them after each iteration.
   */

  function Logins(s: seq<GitHubContributor>): seq<string>
  {
    if s == [] then [] else Logins(s[..|s| - 1]) + [s[|s| - 1].login]
  }

  /** The last record of `s` with login `l` (the one a repeated `Map.set` leaves behind). */
  function LastWith(s: seq<GitHubContributor>, l: string): (c: GitHubContributor)
    requires l in Logins(s)
    ensures c in s && c.login == l
  {
    var last := s[|s| - 1];
    if last.login == l then last else LastWith(s[..|s| - 1], l)
  }

  /** The first record of `s` with login `l`. */
  function FirstWith(s: seq<GitHubContributor>, l: string): (c: GitHubContributor)
    requires l in Logins(s)
    ensures c in s && c.login == l
  {
    if l in Logins(s[..|s| - 1]) then FirstWith(s[..|s| - 1], l) else s[|s| - 1]
  }

  /** The sum of the contributions of all records of `s` with login `l`. */
  function SumFor(s: seq<GitHubContributor>, l: string): int
  {
    if s == [] then 0
    else SumFor(s[..|s| - 1], l) + (if s[|s| - 1].login == l then s[|s| - 1].contributions else 0)
  }

  /** No two records of `s` carry login `l`. */
  predicate AtMostOnce(s: seq<GitHubContributor>, l: string)
  {
    forall i, j :: 0 <= i < j < |s| && s[i].login == l ==> s[j].login != l
  }

  predicate Distinct(s: seq<string>)
  {
    forall i, j :: 0 <= i < j < |s| ==> s[i] != s[j]
  }

  /** The elements of `s` in order of first appearance. */
  function Dedup(s: seq<string>): seq<string>
  {
    if s == [] then []
    else
      var d := Dedup(s[..|s| - 1]);
      if s[|s| - 1] in d then d else d + [s[|s| - 1]]
  }

  /*
   * The JavaScript `Map<string, ContributorData>`: keys in insertion
   * order plus the entries. `Map.set` on a present key replaces the value
   * and keeps the key's position.
   */

  datatype LoginMap = LoginMap(keys: seq<string>, entries: map<string, ContributorData>)

  ghost predicate Valid(m: LoginMap)
  {
    && Distinct(m.keys)
    && (forall k :: k in m.entries <==> k in m.keys)
    && (forall k :: k in m.entries ==> m.entries[k].login == k)
  }

  function Put(m: LoginMap, k: string, v: ContributorData): LoginMap
  {
    LoginMap(if k in m.entries then m.keys else m.keys + [k], m.entries[k := v])
  }

  /** The row created for a framework record (source lines 118-126). */
  function FromFramework(c: GitHubContributor): ContributorData
  {
    ContributorData(c.login, c.avatarUrl, c.htmlUrl, c.contributions, 0, c.contributions, 0)
  }

  /** The row created for a skeleton-only record (source lines 136-144). */
  function FromSkeleton(c: GitHubContributor): ContributorData
  {
    ContributorData(c.login, c.avatarUrl, c.htmlUrl, 0, c.contributions, c.contributions, 0)
  }

  /** The map after the framework loop over `fw`. */
  function FrameworkPass(fw: seq<GitHubContributor>): LoginMap
  {
    if fw == [] then LoginMap([], map[])
    else
      var c := fw[|fw| - 1];
      Put(FrameworkPass(fw[..|fw| - 1]), c.login, FromFramework(c))
  }

  /**
   * One iteration of the skeleton loop: an existing row has its skeleton
   * count overwritten and its total increased; a new login gets a fresh row.
   */
  function SkeletonStep(m: LoginMap, c: GitHubContributor): LoginMap
  {
    if c.login in m.entries then
      var existing := m.entries[c.login];
      Put(m, c.login, existing.(skeletonContributions := c.contributions,
                                totalContributions := existing.totalContributions + c.contributions))
    else
      Put(m, c.login, FromSkeleton(c))
  }

  /** The map after the skeleton loop over `sk`, starting from `m`. */
  function SkeletonPass(m: LoginMap, sk: seq<GitHubContributor>): LoginMap
  {
    if sk == [] then m else SkeletonStep(SkeletonPass(m, sk[..|sk| - 1]), sk[|sk| - 1])
  }

  /** `Array.from(map.values())`. */
  function Values(m: LoginMap): seq<ContributorData>
    requires Valid(m)
  {
    seq(|m.keys|, i requires 0 <= i < |m.keys| => m.entries[m.keys[i]])
  }

  function LoginsOf(s: seq<ContributorData>): seq<string>
  {
    seq(|s|, i requires 0 <= i < |s| => s[i].login)
  }

  /*
   * What each merged row holds, stated per login without reference to the
   * loops: identity from the LAST framework record when there is one, else
   * from the FIRST skeleton record; the framework count of the last
   * framework record; the skeleton count of the last skeleton record; and a
   * total that adds up EVERY skeleton record of that login.
   */
  function ExpectedEntry(fw: seq<GitHubContributor>, sk: seq<GitHubContributor>, l: string): ContributorData
    requires l in Logins(fw) || l in Logins(sk)
  {
    var fwCount := if l in Logins(fw) then LastWith(fw, l).contributions else 0;
    var skCount := if l in Logins(sk) then LastWith(sk, l).contributions else 0;
    var identity := if l in Logins(fw) then LastWith(fw, l) else FirstWith(sk, l);
    ContributorData(l, identity.avatarUrl, identity.htmlUrl, fwCount, skCount, fwCount + SumFor(sk, l), 0)
  }

  /** The map's values in insertion order, before sorting. */
  function InsertionOrder(fw: seq<GitHubContributor>, sk: seq<GitHubContributor>): seq<ContributorData>
  {
    MergedMap(fw, sk);
    Values(SkeletonPass(FrameworkPass(fw), sk))
  }

  /*
   * `Array.prototype.sort((a, b) => b.totalContributions - a.totalContributions)`,
   * which is stable: a reference stable sort, descending by total.
   */

  function Insert(x: ContributorData, s: seq<ContributorData>): seq<ContributorData>
  {
    if s == [] || x.totalContributions >= s[0].totalContributions then [x] + s
    else [s[0]] + Insert(x, s[1..])
  }

  function SortByTotal(s: seq<ContributorData>): seq<ContributorData>
  {
    if s == [] then [] else Insert(s[0], SortByTotal(s[1..]))
  }

  predicate NonIncreasing(s: seq<ContributorData>)
  {
    forall i, j :: 0 <= i < j < |s| ==> s[i].totalContributions >= s[j].totalContributions
  }

  /** The logins of the rows of `s` whose total is `t`, in order: the ties at `t`. */
  function TiedAt(s: seq<ContributorData>, t: int): seq<string>
  {
    if s == [] then []
    else (if s[0].totalContributions == t then [s[0].login] else []) + TiedAt(s[1..], t)
  }

  /** The rank loop: position `i` gets rank `i + 1`. */
  function WithRanks(s: seq<ContributorData>): seq<ContributorData>
  {
    seq(|s|, i requires 0 <= i < |s| => s[i].(rank := i + 1))
  }

  /** The result of `mergeContributorData(fw, sk)`. */
  function Merge(fw: seq<GitHubContributor>, sk: seq<GitHubContributor>): seq<ContributorData>
  {
    WithRanks(SortByTotal(InsertionOrder(fw, sk)))
  }

  /** `mergeContributorData`, loop by loop as the source runs it. */
  method MergeContributorData(fw: seq<GitHubContributor>, sk: seq<GitHubContributor>)
    returns (contributors: seq<ContributorData>)
    ensures contributors == Merge(fw, sk)
  {
    var keys: seq<string> := [];
    var entries: map<string, ContributorData> := map[];
    for i := 0 to |fw|
      invariant LoginMap(keys, entries) == FrameworkPass(fw[..i])
    {
      var c := fw[i];
      if c.login !in entries {
        keys := keys + [c.login];
      }
      entries := entries[c.login := FromFramework(c)];
      assert fw[..i + 1][..i] == fw[..i];
    }
    assert fw[..|fw|] == fw;
    for i := 0 to |sk|
      invariant LoginMap(keys, entries) == SkeletonPass(FrameworkPass(fw), sk[..i])
    {
      var c := sk[i];
      if c.login in entries {
        var existing := entries[c.login];
        entries := entries[c.login := existing.(skeletonContributions := c.contributions,
                                                totalContributions := existing.totalContributions + c.contributions)];
      } else {
        keys := keys + [c.login];
        entries := entries[c.login := FromSkeleton(c)];
      }
      assert sk[..i + 1][..i] == sk[..i];
    }
    assert sk[..|sk|] == sk;
    MergedMapValid(fw, sk);
    contributors := SortByTotal(Values(LoginMap(keys, entries)));
    assert contributors == SortByTotal(InsertionOrder(fw, sk));
    ghost var sorted := contributors;
    for index := 0 to |contributors|
      invariant |contributors| == |sorted|
      invariant forall k :: 0 <= k < index ==> contributors[k] == sorted[k].(rank := k + 1)
      invariant forall k :: index <= k < |sorted| ==> contributors[k] == sorted[k]
    {
      contributors := contributors[index := contributors[index].(rank := index + 1)];
    }
    assert contributors == WithRanks(sorted);
  }

  lemma MergedMapValid(fw: seq<GitHubContributor>, sk: seq<GitHubContributor>)
    ensures Valid(SkeletonPass(FrameworkPass(fw), sk))
  {
    MergedMap(fw, sk);
  }

  /* ---------------------------------------------------------------- */
  /* Lemmas: logins and deduplication                                 */
  /* ---------------------------------------------------------------- */

  lemma {:induction false} LoginsMembership(s: seq<GitHubContributor>)
    ensures |Logins(s)| == |s|
    ensures forall i :: 0 <= i < |s| ==> Logins(s)[i] == s[i].login
  {
    if s != [] {
      LoginsMembership(s[..|s| - 1]);
    }
  }

  /** Deduplication keeps exactly the elements of its input, each once. */
  lemma {:induction false} DedupSpec(s: seq<string>)
    ensures Distinct(Dedup(s))
    ensures forall x :: x in Dedup(s) <==> x in s
  {
    if s != [] {
      DedupSpec(s[..|s| - 1]);
      assert s == s[..|s| - 1] + [s[|s| - 1]];
    }
  }

  /** Deduplicating a concatenation continues from the first part's deduplication. */
  lemma {:induction false} DedupSnoc(a: seq<string>, x: string)
    ensures Dedup(a + [x]) == if x in Dedup(a) then Dedup(a) else Dedup(a) + [x]
  {
    assert (a + [x])[..|a + [x]| - 1] == a;
  }

  lemma {:induction false} SumForAbsent(s: seq<GitHubContributor>, l: string)
    requires l !in Logins(s)
    ensures SumFor(s, l) == 0
  {
    if s != [] {
      SumForAbsent(s[..|s| - 1], l);
    }
  }

  /** `Put` keeps the map well formed and extends the key order as `Dedup` does. */
  lemma PutValid(m: LoginMap, k: string, v: ContributorData)
    requires Valid(m) && v.login == k
    ensures Valid(Put(m, k, v))
    ensures Put(m, k, v).keys == if k in m.keys then m.keys else m.keys + [k]
  {
  }

  /* ---------------------------------------------------------------- */
  /* Lemmas: the two loops                                            */
  /* ---------------------------------------------------------------- */

  /** After the framework loop: one row per framework login, from its last record. */
  lemma {:induction false} FrameworkPassSpec(fw: seq<GitHubContributor>)
    ensures Valid(FrameworkPass(fw))
    ensures FrameworkPass(fw).keys == Dedup(Logins(fw))
    ensures forall l :: l in FrameworkPass(fw).entries <==> l in Logins(fw)
    ensures forall l :: l in FrameworkPass(fw).entries ==>
              l in Logins(fw) && FrameworkPass(fw).entries[l] == FromFramework(LastWith(fw, l))
  {
    if fw != [] {
      var init, c := fw[..|fw| - 1], fw[|fw| - 1];
      FrameworkPassSpec(init);
      DedupSpec(Logins(init));
      PutValid(FrameworkPass(init), c.login, FromFramework(c));
    }
  }

  /** What the skeleton loop leaves for each login, starting from any well-formed map. */
  function SkeletonEntry(m: LoginMap, sk: seq<GitHubContributor>, l: string): ContributorData
    requires l in m.entries || l in Logins(sk)
  {
    if l in m.entries then
      var e := m.entries[l];
      e.(skeletonContributions := if l in Logins(sk) then LastWith(sk, l).contributions else e.skeletonContributions,
         totalContributions := e.totalContributions + SumFor(sk, l))
    else
      var first := FirstWith(sk, l);
      ContributorData(l, first.avatarUrl, first.htmlUrl, 0, LastWith(sk, l).contributions, SumFor(sk, l), 0)
  }

  /** One skeleton step keeps the map well formed and touches only the record's login. */
  lemma SkeletonStepSpec(m: LoginMap, c: GitHubContributor)
    requires Valid(m)
    ensures Valid(SkeletonStep(m, c))
    ensures SkeletonStep(m, c).keys == if c.login in m.keys then m.keys else m.keys + [c.login]
    ensures forall l :: l in SkeletonStep(m, c).entries <==> l in m.entries || l == c.login
    ensures forall l :: l in m.entries && l != c.login ==> SkeletonStep(m, c).entries[l] == m.entries[l]
    ensures SkeletonStep(m, c).entries[c.login] ==
            if c.login in m.entries then
              m.entries[c.login].(skeletonContributions := c.contributions,
                                  totalContributions := m.entries[c.login].totalContributions + c.contributions)
            else FromSkeleton(c)
  {
    var e := if c.login in m.entries then m.entries[c.login].(skeletonContributions := c.contributions,
               totalContributions := m.entries[c.login].totalContributions + c.contributions)
             else FromSkeleton(c);
    PutValid(m, c.login, e);
  }

  lemma {:induction false} SkeletonPassKeys(m: LoginMap, sk: seq<GitHubContributor>, a: seq<string>)
    requires Valid(m) && m.keys == Dedup(a)
    ensures Valid(SkeletonPass(m, sk))
    ensures SkeletonPass(m, sk).keys == Dedup(a + Logins(sk))
  {
    if sk == [] {
      assert a + Logins(sk) == a;
    } else {
      var init, c := sk[..|sk| - 1], sk[|sk| - 1];
      SkeletonPassKeys(m, init, a);
      SkeletonStepSpec(SkeletonPass(m, init), c);
      assert a + Logins(sk) == (a + Logins(init)) + [c.login];
      DedupSnoc(a + Logins(init), c.login);
    }
  }

  lemma {:induction false} SkeletonPassEntries(m: LoginMap, sk: seq<GitHubContributor>)
    ensures forall l :: l in SkeletonPass(m, sk).entries <==> l in m.entries || l in Logins(sk)
    ensures forall l :: l in SkeletonPass(m, sk).entries ==> SkeletonPass(m, sk).entries[l] == SkeletonEntry(m, sk, l)
  {
    if sk != [] {
      var init, c := sk[..|sk| - 1], sk[|sk| - 1];
      SkeletonPassEntries(m, init);
      var m1 := SkeletonPass(m, init);
      var m2 := SkeletonPass(m, sk);
      assert m2 == SkeletonStep(m1, c);
      forall l | l in m2.entries
        ensures m2.entries[l] == SkeletonEntry(m, sk, l)
      {
        SkeletonEntrySnoc(m, sk, l);
        if l == c.login && l !in m1.entries {
          SumForAbsent(init, l);
        }
      }
    }
  }

  /** How the per-login views of `sk` relate to those of `sk` without its last record. */
  lemma SkeletonEntrySnoc(m: LoginMap, sk: seq<GitHubContributor>, l: string)
    requires sk != []
    ensures var init, c := sk[..|sk| - 1], sk[|sk| - 1];
            && (l in Logins(sk) <==> l in Logins(init) || l == c.login)
            && SumFor(sk, l) == SumFor(init, l) + (if c.login == l then c.contributions else 0)
            && (l == c.login ==> LastWith(sk, l) == c)
            && (l != c.login && l in Logins(init) ==> LastWith(sk, l) == LastWith(init, l))
            && (l in Logins(init) ==> FirstWith(sk, l) == FirstWith(init, l))
            && (l == c.login && l !in Logins(init) ==> FirstWith(sk, l) == c)
  {
  }

  /** The map built by both loops, described per login. */
  lemma MergedMap(fw: seq<GitHubContributor>, sk: seq<GitHubContributor>)
    ensures Valid(SkeletonPass(FrameworkPass(fw), sk))
    ensures SkeletonPass(FrameworkPass(fw), sk).keys == Dedup(Logins(fw) + Logins(sk))
    ensures forall l :: l in SkeletonPass(FrameworkPass(fw), sk).entries <==> l in Logins(fw) || l in Logins(sk)
    ensures forall l :: l in SkeletonPass(FrameworkPass(fw), sk).entries ==>
              SkeletonPass(FrameworkPass(fw), sk).entries[l] == ExpectedEntry(fw, sk, l)
  {
    FrameworkPassSpec(fw);
    SkeletonPassKeys(FrameworkPass(fw), sk, Logins(fw));
    SkeletonPassEntries(FrameworkPass(fw), sk);
    forall l | l in Logins(fw) || l in Logins(sk)
      ensures SkeletonEntry(FrameworkPass(fw), sk, l) == ExpectedEntry(fw, sk, l)
    {
      SkeletonEntryIsExpected(fw, sk, l);
    }
  }

  lemma SkeletonEntryIsExpected(fw: seq<GitHubContributor>, sk: seq<GitHubContributor>, l: string)
    requires l in Logins(fw) || l in Logins(sk)
    ensures l in FrameworkPass(fw).entries || l in Logins(sk)
    ensures SkeletonEntry(FrameworkPass(fw), sk, l) == ExpectedEntry(fw, sk, l)
  {
    FrameworkPassSpec(fw);
    if l !in Logins(sk) {
      SumForAbsent(sk, l);
    }
  }

  /* ---------------------------------------------------------------- */
  /* Lemmas: the stable sort                                          */
  /* ---------------------------------------------------------------- */

  lemma {:induction false} InsertPermutes(x: ContributorData, s: seq<ContributorData>)
    ensures multiset(Insert(x, s)) == multiset(s) + multiset{x}
  {
    if !(s == [] || x.totalContributions >= s[0].totalContributions) {
      InsertPermutes(x, s[1..]);
      assert s == [s[0]] + s[1..];
    }
  }

  lemma {:induction false} InsertBounded(x: ContributorData, s: seq<ContributorData>, b: int)
    requires x.totalContributions <= b
    requires forall i :: 0 <= i < |s| ==> s[i].totalContributions <= b
    ensures forall i :: 0 <= i < |Insert(x, s)| ==> Insert(x, s)[i].totalContributions <= b
  {
    if !(s == [] || x.totalContributions >= s[0].totalContributions) {
      InsertBounded(x, s[1..], b);
    }
  }

  lemma {:induction false} InsertSorted(x: ContributorData, s: seq<ContributorData>)
    requires NonIncreasing(s)
    ensures NonIncreasing(Insert(x, s))
  {
    if !(s == [] || x.totalContributions >= s[0].totalContributions) {
      InsertSorted(x, s[1..]);
      InsertBounded(x, s[1..], s[0].totalContributions);
    }
  }

  lemma {:induction false} InsertTies(x: ContributorData, s: seq<ContributorData>, t: int)
    ensures TiedAt(Insert(x, s), t) == (if x.totalContributions == t then [x.login] else []) + TiedAt(s, t)
  {
    if s == [] || x.totalContributions >= s[0].totalContributions {
      assert ([x] + s)[1..] == s;
    } else {
      InsertTies(x, s[1..], t);
      var r := Insert(x, s);
      assert r[0] == s[0] && r[1..] == Insert(x, s[1..]);
      assert TiedAt(r, t) == (if s[0].totalContributions == t then [s[0].login] else []) + TiedAt(r[1..], t);
      assert TiedAt(s, t) == (if s[0].totalContributions == t then [s[0].login] else []) + TiedAt(s[1..], t);
      if x.totalContributions == t {
        assert TiedAt(r, t) == [x.login] + TiedAt(s[1..], t);
      } else {
        assert TiedAt(r[1..], t) == TiedAt(s[1..], t);
      }
    }
  }

  /** The reference sort is non-increasing, a permutation, and keeps the order of ties. */
  lemma {:induction false} SortByTotalSpec(s: seq<ContributorData>)
    ensures NonIncreasing(SortByTotal(s))
    ensures multiset(SortByTotal(s)) == multiset(s)
    ensures |SortByTotal(s)| == |s|
    ensures forall t :: TiedAt(SortByTotal(s), t) == TiedAt(s, t)
  {
    if s != [] {
      SortByTotalSpec(s[1..]);
      InsertSorted(s[0], SortByTotal(s[1..]));
      InsertPermutes(s[0], SortByTotal(s[1..]));
      forall t ensures TiedAt(SortByTotal(s), t) == TiedAt(s, t) {
        InsertTies(s[0], SortByTotal(s[1..]), t);
      }
      assert s == [s[0]] + s[1..];
      assert |multiset(SortByTotal(s))| == |multiset(s)|;
    }
  }

  /** A list with distinct logins holds each row at most once. */
  lemma {:induction false} DistinctLoginsCount(a: seq<ContributorData>, x: ContributorData)
    requires Distinct(LoginsOf(a))
    ensures multiset(a)[x] <= 1
  {
    if a != [] {
      assert a == [a[0]] + a[1..];
      assert Distinct(LoginsOf(a[1..])) by {
        forall i, j | 0 <= i < j < |a[1..]| ensures LoginsOf(a[1..])[i] != LoginsOf(a[1..])[j] {
          assert LoginsOf(a)[i + 1] != LoginsOf(a)[j + 1];
        }
      }
      DistinctLoginsCount(a[1..], x);
      forall k | 0 <= k < |a[1..]| ensures a[1..][k] != a[0] {
        assert LoginsOf(a)[0] != LoginsOf(a)[k + 1];
      }
    }
  }

  lemma PermutationSameLogins(a: seq<ContributorData>, b: seq<ContributorData>)
    requires multiset(a) == multiset(b)
    ensures forall l :: l in LoginsOf(a) ==> l in LoginsOf(b)
  {
    forall l | l in LoginsOf(a) ensures l in LoginsOf(b) {
      var j :| 0 <= j < |a| && a[j].login == l;
      assert a[j] in multiset(b);
      var i :| 0 <= i < |b| && b[i] == a[j];
      assert LoginsOf(b)[i] == l;
    }
  }

  /** A permutation of a list with distinct logins has distinct logins. */
  lemma PermutationDistinctLogins(a: seq<ContributorData>, b: seq<ContributorData>)
    requires multiset(a) == multiset(b) && Distinct(LoginsOf(a))
    ensures Distinct(LoginsOf(b))
  {
    forall i, j | 0 <= i < j < |b| ensures LoginsOf(b)[i] != LoginsOf(b)[j] {
      if b[i].login == b[j].login {
        assert b[i] in multiset(a) && b[j] in multiset(a);
        var p :| 0 <= p < |a| && a[p] == b[i];
        var q :| 0 <= q < |a| && a[q] == b[j];
        assert LoginsOf(a)[p] == LoginsOf(a)[q];
        assert b[i] == b[j];
        assert b == b[..j] + [b[j]] + b[j + 1..];
        assert b[i] in b[..j];
        assert multiset(b)[b[i]] >= 2;
        DistinctLoginsCount(a, b[i]);
        assert false;
      }
    }
  }

  /** Ties depend only on the logins and totals, position by position. */
  lemma {:induction false} TiedAtSameKeys(s: seq<ContributorData>, s': seq<ContributorData>, t: int)
    requires |s| == |s'|
    requires forall i :: 0 <= i < |s| ==>
               s[i].login == s'[i].login && s[i].totalContributions == s'[i].totalContributions
    ensures TiedAt(s, t) == TiedAt(s', t)
  {
    if s != [] {
      TiedAtSameKeys(s[1..], s'[1..], t);
    }
  }

  /* ---------------------------------------------------------------- */
  /* Properties of the merge                                          */
  /* ---------------------------------------------------------------- */

  /** The map's values follow first appearance: framework logins, then new skeleton logins. */
  lemma InsertionOrderLogins(fw: seq<GitHubContributor>, sk: seq<GitHubContributor>)
    ensures LoginsOf(InsertionOrder(fw, sk)) == Dedup(Logins(fw) + Logins(sk))
    ensures forall i :: 0 <= i < |InsertionOrder(fw, sk)| ==>
              (InsertionOrder(fw, sk)[i].login in Logins(fw) || InsertionOrder(fw, sk)[i].login in Logins(sk)) &&
              InsertionOrder(fw, sk)[i] == ExpectedEntry(fw, sk, InsertionOrder(fw, sk)[i].login)
  {
    MergedMap(fw, sk);
  }

  /** Exactly one row per distinct login of the two inputs. */
  lemma MergeLogins(fw: seq<GitHubContributor>, sk: seq<GitHubContributor>)
    ensures Distinct(LoginsOf(Merge(fw, sk)))
    ensures forall l :: l in LoginsOf(Merge(fw, sk)) <==> l in Logins(fw) || l in Logins(sk)
    ensures |Merge(fw, sk)| == |Dedup(Logins(fw) + Logins(sk))|
  {
    var v := InsertionOrder(fw, sk);
    InsertionOrderLogins(fw, sk);
    DedupSpec(Logins(fw) + Logins(sk));
    SortByTotalSpec(v);
    var sorted := SortByTotal(v);
    PermutationDistinctLogins(v, sorted);
    assert LoginsOf(Merge(fw, sk)) == LoginsOf(sorted);
    PermutationSameLogins(v, sorted);
    PermutationSameLogins(sorted, v);
  }

  /** Every row is the per-login expectation, carrying its position's rank. */
  lemma MergeEntries(fw: seq<GitHubContributor>, sk: seq<GitHubContributor>)
    ensures forall i :: 0 <= i < |Merge(fw, sk)| ==>
              (Merge(fw, sk)[i].login in Logins(fw) || Merge(fw, sk)[i].login in Logins(sk)) &&
              Merge(fw, sk)[i] == ExpectedEntry(fw, sk, Merge(fw, sk)[i].login).(rank := i + 1)
  {
    var v := InsertionOrder(fw, sk);
    InsertionOrderLogins(fw, sk);
    DedupSpec(Logins(fw) + Logins(sk));
    SortByTotalSpec(v);
    var sorted := SortByTotal(v);
    forall i | 0 <= i < |sorted|
      ensures (sorted[i].login in Logins(fw) || sorted[i].login in Logins(sk))
      ensures sorted[i] == ExpectedEntry(fw, sk, sorted[i].login)
    {
      assert sorted[i] in multiset(v);
      var j :| 0 <= j < |v| && v[j] == sorted[i];
      assert LoginsOf(v)[j] == sorted[i].login;
    }
  }

  /** Output order: totals never increase, ties keep map order, ranks are 1..N. */
  lemma MergeOrder(fw: seq<GitHubContributor>, sk: seq<GitHubContributor>)
    ensures NonIncreasing(Merge(fw, sk))
    ensures forall i :: 0 <= i < |Merge(fw, sk)| ==> Merge(fw, sk)[i].rank == i + 1
    ensures forall t :: TiedAt(Merge(fw, sk), t) == TiedAt(InsertionOrder(fw, sk), t)
  {
    var v := InsertionOrder(fw, sk);
    SortByTotalSpec(v);
    forall t ensures TiedAt(Merge(fw, sk), t) == TiedAt(InsertionOrder(fw, sk), t) {
      TiedAtSameKeys(Merge(fw, sk), SortByTotal(v), t);
    }
  }

  /** A login present in the framework list keeps the identity fields of its framework record. */
  lemma MergeIdentity(fw: seq<GitHubContributor>, sk: seq<GitHubContributor>, i: int)
    requires 0 <= i < |Merge(fw, sk)|
    ensures Merge(fw, sk)[i].login in Logins(fw) ==>
              Merge(fw, sk)[i].avatarUrl == LastWith(fw, Merge(fw, sk)[i].login).avatarUrl &&
              Merge(fw, sk)[i].htmlUrl == LastWith(fw, Merge(fw, sk)[i].login).htmlUrl
    ensures Merge(fw, sk)[i].login !in Logins(fw) ==>
              Merge(fw, sk)[i].login in Logins(sk) &&
              Merge(fw, sk)[i].avatarUrl == FirstWith(sk, Merge(fw, sk)[i].login).avatarUrl &&
              Merge(fw, sk)[i].htmlUrl == FirstWith(sk, Merge(fw, sk)[i].login).htmlUrl
  {
    MergeEntries(fw, sk);
  }

  /**
   * A login missing from one list has 0 for that list; a login that occurs
   * at most once in the skeleton list has a total equal to the sum of its
   * two counts, and so does every login when skeleton logins are distinct.
   */
  lemma MergeCounts(fw: seq<GitHubContributor>, sk: seq<GitHubContributor>, i: int)
    requires 0 <= i < |Merge(fw, sk)|
    ensures Merge(fw, sk)[i].login !in Logins(fw) ==> Merge(fw, sk)[i].frameworkContributions == 0
    ensures Merge(fw, sk)[i].login !in Logins(sk) ==> Merge(fw, sk)[i].skeletonContributions == 0
    ensures AtMostOnce(sk, Merge(fw, sk)[i].login) ==>
              Merge(fw, sk)[i].totalContributions ==
              Merge(fw, sk)[i].frameworkContributions + Merge(fw, sk)[i].skeletonContributions
    ensures Distinct(Logins(sk)) ==>
              Merge(fw, sk)[i].totalContributions ==
              Merge(fw, sk)[i].frameworkContributions + Merge(fw, sk)[i].skeletonContributions
  {
    MergeEntries(fw, sk);
    var l := Merge(fw, sk)[i].login;
    if l !in Logins(sk) {
      SumForAbsent(sk, l);
    } else {
      if AtMostOnce(sk, l) {
        SumForUnique(sk, l);
      }
      if Distinct(Logins(sk)) {
        LoginsMembership(sk);
        assert AtMostOnce(sk, l) by {
          forall a, b | 0 <= a < b < |sk| && sk[a].login == l ensures sk[b].login != l {
            assert Logins(sk)[a] != Logins(sk)[b];
          }
        }
        SumForUnique(sk, l);
      }
    }
  }

  /** When `l` occurs once in `s`, its sum is that one record's count. */
  lemma {:induction false} SumForUnique(s: seq<GitHubContributor>, l: string)
    requires l in Logins(s) && AtMostOnce(s, l)
    ensures SumFor(s, l) == LastWith(s, l).contributions
  {
    var init := s[..|s| - 1];
    LoginsMembership(init);
    assert Logins(s) == Logins(init) + [s[|s| - 1].login];
    if s[|s| - 1].login == l {
      forall k | 0 <= k < |init| ensures Logins(init)[k] != l {
        assert s[k] == init[k];
      }
      SumForAbsent(init, l);
    } else {
      assert l in Logins(init);
      assert AtMostOnce(init, l) by {
        forall i, j | 0 <= i < j < |init| && init[i].login == l ensures init[j].login != l {
          assert s[i] == init[i] && s[j] == init[j];
        }
      }
      SumForUnique(init, l);
    }
  }

  /**
   * A repeated skeleton login breaks the sum: the skeleton count is the
   * last record's, while the total adds both.
   */
  lemma RepeatedSkeletonLogin()
    ensures var c1 := GitHubContributor("a", 1, "u", "h", 1);
            var c2 := GitHubContributor("a", 1, "u", "h", 2);
            var r := Merge([], [c1, c2]);
            |r| == 1 && r[0].skeletonContributions == 2 && r[0].totalContributions == 3 &&
            r[0].totalContributions != r[0].frameworkContributions + r[0].skeletonContributions
  {
    var c1 := GitHubContributor("a", 1, "u", "h", 1);
    var c2 := GitHubContributor("a", 1, "u", "h", 2);
    var m0 := FrameworkPass([]);
    assert [c1, c2][..1] == [c1];
    assert [c1][..0] == [];
    assert m0 == LoginMap([], map[]);
    var m1 := SkeletonPass(m0, [c1]);
    assert m1 == SkeletonStep(SkeletonPass(m0, []), c1);
    assert m1 == SkeletonStep(m0, c1);
    assert m1 == Put(m0, "a", FromSkeleton(c1));
    assert m1 == LoginMap(["a"], map["a" := FromSkeleton(c1)]);
    var row := ContributorData("a", "u", "h", 0, 2, 3, 0);
    var m2 := SkeletonPass(m0, [c1, c2]);
    assert m2 == SkeletonStep(m1, c2);
    assert m2 == LoginMap(["a"], map["a" := row]);
    MergedMapValid([], [c1, c2]);
    assert InsertionOrder([], [c1, c2]) == [row];
    assert SortByTotal([row]) == [row];
  }

  /**
   * Framework `[a: 10]` and skeleton `[a: 5, b: 20]` merge to `b` (rank 1,
   * total 20) ahead of `a` (rank 2, counts 10 and 5, total 15).
   */
  lemma MergeScenario()
    ensures var a := GitHubContributor("a", 1, "ua", "ha", 10);
            var a' := GitHubContributor("a", 1, "ua", "ha", 5);
            var b := GitHubContributor("b", 2, "ub", "hb", 20);
            Merge([a], [a', b]) == [ContributorData("b", "ub", "hb", 0, 20, 20, 1),
                                    ContributorData("a", "ua", "ha", 10, 5, 15, 2)]
  {
    var a := GitHubContributor("a", 1, "ua", "ha", 10);
    var a' := GitHubContributor("a", 1, "ua", "ha", 5);
    var b := GitHubContributor("b", 2, "ub", "hb", 20);
    assert [a][..0] == [];
    var m0 := FrameworkPass([a]);
    assert m0 == Put(FrameworkPass([]), "a", FromFramework(a));
    assert m0 == LoginMap(["a"], map["a" := FromFramework(a)]);
    assert [a', b][..1] == [a'];
    assert [a'][..0] == [];
    var m1 := SkeletonPass(m0, [a']);
    assert m1 == SkeletonStep(SkeletonPass(m0, []), a');
    var rowA := ContributorData("a", "ua", "ha", 10, 5, 15, 0);
    assert m1 == LoginMap(["a"], map["a" := rowA]);
    var m2 := SkeletonPass(m0, [a', b]);
    assert m2 == SkeletonStep(m1, b);
    var rowB := FromSkeleton(b);
    assert m2 == LoginMap(["a", "b"], map["a" := rowA, "b" := rowB]);
    MergedMapValid([a], [a', b]);
    assert InsertionOrder([a], [a', b]) == [rowA, rowB];
    assert SortByTotal([rowB]) == [rowB];
    assert SortByTotal([rowA, rowB]) == Insert(rowA, [rowB]);
    assert SortByTotal([rowA, rowB]) == [rowB, rowA];
  }
}
