/** The store's predicate language and the scans that evaluate it. Every read of
    the store goes through `IndexOf`, `FindOne` or `FindMany`: a linear scan in
    insertion order. */
module Query {
  import opened Entities

  /** One clause per call: match everything, `{key, equals}` on a scalar field,
      or `{key, inArray}` on a sequence field ("the field contains the value"). */
  datatype Predicate<!T> =
    | All
    | Equals(key: T -> Id, value: Id)
    | InArray(field: T -> seq<Id>, value: Id)

  predicate Matches<T>(p: Predicate<T>, r: T): (b: bool)
    ensures p.All? ==> b
    ensures p.Equals? ==> (b <==> p.key(r) == p.value)
    ensures p.InArray? ==> (b <==> p.value in p.field(r))
  {
    match p
    case All => true
    case Equals(key, v) => key(r) == v
    case InArray(field, v) => v in field(r)
  }

  /** Position of the first record that matches. */
  function IndexOf<T>(s: seq<T>, p: Predicate<T>): (r: Option<nat>)
    ensures r.Some? ==> r.value < |s| && Matches(p, s[r.value])
    ensures r.Some? ==> forall j :: 0 <= j < r.value ==> !Matches(p, s[j])
    ensures r.None? <==> forall j :: 0 <= j < |s| ==> !Matches(p, s[j])
  {
    if |s| == 0 then None
    else if Matches(p, s[0]) then Some(0)
    else match IndexOf(s[1..], p)
      case None => None
      case Some(i) => Some(i + 1)
  }

  /** The store's `findOne`: the first match, or none. */
  function FindOne<T>(s: seq<T>, p: Predicate<T>): (r: Option<T>)
    ensures r.Some? ==> r.value in s && Matches(p, r.value)
    ensures r.None? <==> forall j :: 0 <= j < |s| ==> !Matches(p, s[j])
    ensures r.Some? ==> exists i :: 0 <= i < |s| && s[i] == r.value && forall j :: 0 <= j < i ==> !Matches(p, s[j])
  {
    match IndexOf(s, p)
    case None => None
    case Some(i) => Some(s[i])
  }

  /** Two collections whose records match at the same positions have their
      first match at the same position. */
  lemma SameMatchesSameIndex<T>(a: seq<T>, b: seq<T>, p: Predicate<T>)
    requires |a| == |b|
    requires forall i :: 0 <= i < |a| ==> (Matches(p, a[i]) <==> Matches(p, b[i]))
    ensures IndexOf(a, p) == IndexOf(b, p)
  {
    var x, y := IndexOf(a, p), IndexOf(b, p);
    if x.Some? && y.Some? {
      assert !(x.value < y.value) && !(y.value < x.value);
    }
  }

  /** The store's `findMany`: the matching records, in store order. */
  function FindMany<T>(s: seq<T>, p: Predicate<T>): (r: seq<T>)
    ensures |r| <= |s|
    ensures forall i :: 0 <= i < |r| ==> r[i] in s && Matches(p, r[i])
    ensures forall i :: 0 <= i < |s| && Matches(p, s[i]) ==> s[i] in r
    ensures p.All? ==> r == s
  {
    if |s| == 0 then []
    else (if Matches(p, s[0]) then [s[0]] else []) + FindMany(s[1..], p)
  }

  /** The records that do NOT match, in store order. */
  function Reject<T>(s: seq<T>, p: Predicate<T>): (r: seq<T>)
    ensures forall i :: 0 <= i < |r| ==> r[i] in s && !Matches(p, r[i])
    ensures forall i :: 0 <= i < |s| && !Matches(p, s[i]) ==> s[i] in r
    ensures |r| + |FindMany(s, p)| == |s|
  {
    if |s| == 0 then []
    else (if Matches(p, s[0]) then [] else [s[0]]) + Reject(s[1..], p)
  }

  /** `FindMany` is a filter: it keeps or drops each single record and
      distributes over concatenation, so it preserves store order. */
  lemma {:induction false} FindManyConcat<T>(a: seq<T>, b: seq<T>, p: Predicate<T>)
    ensures FindMany(a + b, p) == FindMany(a, p) + FindMany(b, p)
  {
    if |a| > 0 {
      assert (a + b)[1..] == a[1..] + b;
      FindManyConcat(a[1..], b, p);
    } else {
      assert a + b == b;
    }
  }

  lemma FindManySingle<T>(x: T, p: Predicate<T>)
    ensures FindMany([x], p) == if Matches(p, x) then [x] else []
  {
    assert [x][1..] == [];
  }

  /** No two records share a key. */
  ghost predicate UniqueKeys<T>(s: seq<T>, key: T -> Id) {
    forall i, j :: 0 <= i < j < |s| ==> key(s[i]) != key(s[j])
  }

  /** No record has the key `k`. */
  ghost predicate Fresh<T>(s: seq<T>, key: T -> Id, k: Id) {
    forall x :: x in s ==> key(x) != k
  }

  /** In a collection with unique keys, a key names at most one record. */
  lemma SameKeySameRecord<T>(s: seq<T>, key: T -> Id, x: T, y: T)
    requires UniqueKeys(s, key) && x in s && y in s && key(x) == key(y)
    ensures x == y
  {
    var i :| 0 <= i < |s| && s[i] == x;
    var j :| 0 <= j < |s| && s[j] == y;
    assert !(i < j) && !(j < i);
  }

  /** Appending a record with a fresh key keeps keys unique. */
  lemma AppendFresh<T>(s: seq<T>, key: T -> Id, x: T)
    requires UniqueKeys(s, key) && Fresh(s, key, key(x))
    ensures UniqueKeys(s + [x], key)
  {
    forall i, j | 0 <= i < j < |s + [x]| ensures key((s + [x])[i]) != key((s + [x])[j]) {
      if j == |s| {
        assert (s + [x])[i] in s;
      }
    }
  }

  /** Keeping or dropping records keeps keys unique. */
  lemma {:induction false} FilterKeepsUnique<T>(s: seq<T>, key: T -> Id, p: Predicate<T>)
    requires UniqueKeys(s, key)
    ensures UniqueKeys(FindMany(s, p), key) && UniqueKeys(Reject(s, p), key)
  {
    if |s| > 0 {
      var t := s[1..];
      assert UniqueKeys(t, key) by {
        forall i, j | 0 <= i < j < |t| ensures key(t[i]) != key(t[j]) {
          assert t[i] == s[i + 1] && t[j] == s[j + 1];
        }
      }
      FilterKeepsUnique(t, key, p);
      assert Fresh(t, key, key(s[0])) by {
        forall x | x in t ensures key(x) != key(s[0]) {
          var j :| 0 <= j < |t| && t[j] == x;
          assert s[j + 1] == x;
        }
      }
      var f, g := FindMany(t, p), Reject(t, p);
      assert Fresh(f, key, key(s[0])) by {
        forall x | x in f ensures key(x) != key(s[0]) {
          var j :| 0 <= j < |f| && f[j] == x;
        }
      }
      assert Fresh(g, key, key(s[0])) by {
        forall x | x in g ensures key(x) != key(s[0]) {
          var j :| 0 <= j < |g| && g[j] == x;
        }
      }
      if Matches(p, s[0]) {
        PrependFresh(f, key, s[0]);
        assert Reject(s, p) == g;
      } else {
        PrependFresh(g, key, s[0]);
        assert FindMany(s, p) == f;
      }
    }
  }

  lemma PrependFresh<T>(s: seq<T>, key: T -> Id, x: T)
    requires UniqueKeys(s, key) && Fresh(s, key, key(x))
    ensures UniqueKeys([x] + s, key)
  {
    var t := [x] + s;
    forall i, j | 0 <= i < j < |t| ensures key(t[i]) != key(t[j]) {
      assert t[j] == s[j - 1];
      if i == 0 {
        assert t[j] in s;
      } else {
        assert t[i] == s[i - 1];
      }
    }
  }

  /** The keys of the first `k` records. */
  ghost function KeysUpTo<T>(s: seq<T>, key: T -> Id, k: nat): set<Id>
    requires k <= |s|
  {
    set j | 0 <= j < k :: key(s[j])
  }

  lemma KeysUpToStep<T>(s: seq<T>, key: T -> Id, k: nat)
    requires k < |s|
    ensures KeysUpTo(s, key, k + 1) == KeysUpTo(s, key, k) + {key(s[k])}
  {
  }

  /** With unique keys, the key of a later record is not among those of the
      earlier ones. */
  lemma KeysUpToFresh<T>(s: seq<T>, key: T -> Id, k: nat)
    requires UniqueKeys(s, key) && k < |s|
    ensures key(s[k]) !in KeysUpTo(s, key, k)
  {
  }

  /** The records whose key is not in `gone`, in store order: the state left by
      deleting each key of `gone` in turn. */
  function WithoutKeys<T>(s: seq<T>, key: T -> Id, gone: set<Id>): (r: seq<T>)
    ensures forall i :: 0 <= i < |r| ==> r[i] in s && key(r[i]) !in gone
    ensures forall i :: 0 <= i < |s| && key(s[i]) !in gone ==> s[i] in r
  {
    if |s| == 0 then []
    else (if key(s[0]) in gone then [] else [s[0]]) + WithoutKeys(s[1..], key, gone)
  }

  /** Deleting one more key from a `WithoutKeys` state. */
  lemma {:induction false} WithoutOneMoreKey<T>(s: seq<T>, key: T -> Id, gone: set<Id>, k: Id)
    ensures Reject(WithoutKeys(s, key, gone), Equals(key, k)) == WithoutKeys(s, key, gone + {k})
  {
    if |s| > 0 {
      WithoutOneMoreKey(s[1..], key, gone, k);
      var head := if key(s[0]) in gone then [] else [s[0]];
      var w := WithoutKeys(s, key, gone);
      assert w == head + WithoutKeys(s[1..], key, gone);
      if head == [] {
        assert w == WithoutKeys(s[1..], key, gone);
      } else {
        assert w[0] == s[0] && w[1..] == WithoutKeys(s[1..], key, gone);
      }
    }
  }

  lemma WithoutNoKeys<T>(s: seq<T>, key: T -> Id)
    ensures WithoutKeys(s, key, {}) == s
  {
  }

  /** If the deleted keys are exactly the keys of the records that match `p`,
      the result is the records that do not match `p`. */
  lemma {:induction false} WithoutMatchingKeys<T>(s: seq<T>, key: T -> Id, gone: set<Id>, p: Predicate<T>)
    requires forall x :: x in s ==> (key(x) in gone <==> Matches(p, x))
    ensures WithoutKeys(s, key, gone) == Reject(s, p)
  {
    if |s| > 0 {
      assert s[0] in s;
      assert forall x :: x in s[1..] ==> x in s;
      WithoutMatchingKeys(s[1..], key, gone, p);
    }
  }
}
