/** crypto_hash of backend/utils/cryptohash.py: serialise every argument, sort the serialisations,
    join them and take the SHA-256 hex digest. SHA-256 and json.dumps are parameters: the model
    knows only that the digest is 64 lower-case hex characters. */
module CryptoHash {
  import opened Hex

  predicate IsHexDigest(s: string)
  {
    |s| == 64 && IsHex(s)
  }

  function Zeros(n: nat): (r: string)
    ensures |r| == n && forall i :: 0 <= i < n ==> r[i] == '0'
  {
    if n == 0 then "" else Zeros(n - 1) + "0"
  }

  /** hashlib.sha256(...).hexdigest(), on whatever the caller hashes (the UTF-8 bytes of a string,
      the bytes of a public key): a function whose every result is a hex digest. */
  type Digest<!T(!new)> = f: T -> string | forall x :: IsHexDigest(f(x)) witness (x: T) => Zeros(64)

  // ---------- Python's ordering of str values: lexicographic by code point ----------

  predicate StrLe(a: string, b: string)
  {
    if a == [] then true
    else if b == [] then false
    else if a[0] != b[0] then a[0] < b[0]
    else StrLe(a[1..], b[1..])
  }

  lemma {:induction false} StrLeTotal(a: string, b: string)
    ensures StrLe(a, b) || StrLe(b, a)
  {
    if a != [] && b != [] && a[0] == b[0] {
      StrLeTotal(a[1..], b[1..]);
    }
  }

  lemma {:induction false} StrLeAntisymmetric(a: string, b: string)
    requires StrLe(a, b) && StrLe(b, a)
    ensures a == b
  {
    if a != [] && b != [] {
      StrLeAntisymmetric(a[1..], b[1..]);
      assert a == [a[0]] + a[1..] && b == [b[0]] + b[1..];
    }
  }

  lemma {:induction false} StrLeTransitive(a: string, b: string, c: string)
    requires StrLe(a, b) && StrLe(b, c)
    ensures StrLe(a, c)
  {
    if a != [] && b != [] && c != [] && a[0] == b[0] && b[0] == c[0] {
      StrLeTransitive(a[1..], b[1..], c[1..]);
    }
  }

  predicate SortedStrings(s: seq<string>)
  {
    forall i, j :: 0 <= i < j < |s| ==> StrLe(s[i], s[j])
  }

  // ---------- sorted(): an insertion sort, specified by "sorted permutation" ----------

  function Insert(x: string, s: seq<string>): seq<string>
  {
    if s == [] then [x]
    else if StrLe(x, s[0]) then [x] + s
    else [s[0]] + Insert(x, s[1..])
  }

  /** sorted(): the serialisations in ascending order (see SortStringsSorts). */
  function SortStrings(s: seq<string>): seq<string>
  {
    if s == [] then [] else Insert(s[0], SortStrings(s[1..]))
  }

  /** A lower bound of every element of s and of x bounds every element of a permutation of them. */
  lemma LowerBound(lo: string, t: seq<string>, s: seq<string>, x: string)
    requires multiset(t) == multiset(s) + multiset{x}
    requires StrLe(lo, x) && forall i :: 0 <= i < |s| ==> StrLe(lo, s[i])
    ensures forall k :: 0 <= k < |t| ==> StrLe(lo, t[k])
  {
    forall k | 0 <= k < |t| ensures StrLe(lo, t[k]) {
      assert t[k] in multiset(t);
      if t[k] != x {
        assert t[k] in multiset(s);
        var j :| 0 <= j < |s| && s[j] == t[k];
      }
    }
  }

  lemma {:induction false} InsertSorts(x: string, s: seq<string>)
    requires SortedStrings(s)
    ensures SortedStrings(Insert(x, s))
    ensures multiset(Insert(x, s)) == multiset(s) + multiset{x}
  {
    if s == [] {
    } else if StrLe(x, s[0]) {
      forall j | 0 <= j < |s| ensures StrLe(x, s[j]) {
        if j > 0 { StrLeTransitive(x, s[0], s[j]); }
      }
      assert s == [s[0]] + s[1..];
    } else {
      StrLeTotal(x, s[0]);
      InsertSorts(x, s[1..]);
      LowerBound(s[0], Insert(x, s[1..]), s[1..], x);
      assert s == [s[0]] + s[1..];
    }
  }

  /** sorted() returns its input in ascending order: a sorted permutation. */
  lemma {:induction false} SortStringsSorts(s: seq<string>)
    ensures SortedStrings(SortStrings(s))
    ensures multiset(SortStrings(s)) == multiset(s)
  {
    if s != [] {
      SortStringsSorts(s[1..]);
      InsertSorts(s[0], SortStrings(s[1..]));
      assert s == [s[0]] + s[1..];
    }
  }

  lemma SortedHeadLeast(s: seq<string>, x: string)
    requires SortedStrings(s) && s != [] && x in multiset(s)
    ensures StrLe(s[0], x)
  {
    var j :| 0 <= j < |s| && s[j] == x;
    if j == 0 {
      StrLeTotal(x, x);
    }
  }

  lemma MultisetTail<T>(s: seq<T>)
    requires s != []
    ensures multiset(s[1..]) == multiset(s) - multiset{s[0]}
  {
    assert s == [s[0]] + s[1..];
  }

  lemma MultisetRemove<T>(s: seq<T>, j: nat)
    requires j < |s|
    ensures multiset(s[..j] + s[j + 1..]) == multiset(s) - multiset{s[j]}
  {
    assert s == s[..j] + [s[j]] + s[j + 1..];
  }

  /** A sorted permutation is unique: sorting depends only on the multiset of its input. */
  lemma {:induction false} SortedPermutationUnique(a: seq<string>, b: seq<string>)
    requires SortedStrings(a) && SortedStrings(b)
    requires multiset(a) == multiset(b)
    ensures a == b
  {
    if a != [] {
      assert |b| == |a| by {
        assert |multiset(a)| == |a| && |multiset(b)| == |b|;
      }
      assert a[0] in multiset(b) && b[0] in multiset(a);
      SortedHeadLeast(b, a[0]);
      SortedHeadLeast(a, b[0]);
      StrLeAntisymmetric(a[0], b[0]);
      MultisetTail(a);
      MultisetTail(b);
      SortedPermutationUnique(a[1..], b[1..]);
    }
  }

  // ---------- crypto_hash ----------

  function MapSeq<V>(f: V -> string, s: seq<V>): (r: seq<string>)
    ensures |r| == |s| && forall i :: 0 <= i < |s| ==> r[i] == f(s[i])
  {
    if s == [] then [] else [f(s[0])] + MapSeq(f, s[1..])
  }

  function Join(ss: seq<string>): string
  {
    if ss == [] then "" else ss[0] + Join(ss[1..])
  }

  /** The string that crypto_hash feeds to SHA-256. */
  function HashInput<V>(dumps: V -> string, args: seq<V>): string
  {
    Join(SortStrings(MapSeq(dumps, args)))
  }

  /** crypto_hash(*args), with json.dumps(arg, sort_keys=True, ...) given as `dumps`. */
  function Hash<V>(sha: Digest<string>, dumps: V -> string, args: seq<V>): (r: string)
    ensures IsHexDigest(r)
  {
    sha(HashInput(dumps, args))
  }

  /** The hashed string is the serialisations joined in ascending order, whichever sorted
      arrangement of them one writes down. */
  lemma HashInputIsSortedJoin<V>(dumps: V -> string, args: seq<V>, sorted: seq<string>)
    requires SortedStrings(sorted) && multiset(sorted) == multiset(MapSeq(dumps, args))
    ensures HashInput(dumps, args) == Join(sorted)
  {
    SortStringsSorts(MapSeq(dumps, args));
    SortedPermutationUnique(SortStrings(MapSeq(dumps, args)), sorted);
  }

  lemma MapSeqRemove<V>(f: V -> string, s: seq<V>, j: nat)
    requires j < |s|
    ensures MapSeq(f, s)[..j] + MapSeq(f, s)[j + 1..] == MapSeq(f, s[..j] + s[j + 1..])
  {
    var l, r := MapSeq(f, s)[..j] + MapSeq(f, s)[j + 1..], MapSeq(f, s[..j] + s[j + 1..]);
    assert |l| == |r|;
    forall k | 0 <= k < |l| ensures l[k] == r[k] {
      if k < j {
        assert (s[..j] + s[j + 1..])[k] == s[k];
      } else {
        assert (s[..j] + s[j + 1..])[k] == s[k + 1];
      }
    }
  }

  /** Taking one equal element out of two sequences keeps their multisets equal, and putting it
      back does too. */
  lemma RemoveMatching<T>(a: seq<T>, b: seq<T>, j: nat)
    requires a != [] && j < |b| && b[j] == a[0]
    ensures multiset(a) == multiset(b) <==> multiset(a[1..]) == multiset(b[..j] + b[j + 1..])
  {
    MultisetRemove(a, 0);
    MultisetRemove(b, j);
    assert a[..0] + a[1..] == a[1..];
    assert a[0] in multiset(a) && b[j] in multiset(b);
    if multiset(a[1..]) == multiset(b[..j] + b[j + 1..]) {
      MultisetAddBack(multiset(a), multiset(b), a[0]);
    }
  }

  lemma {:induction false} MapSeqMultiset<V>(f: V -> string, a: seq<V>, b: seq<V>)
    requires multiset(a) == multiset(b)
    ensures multiset(MapSeq(f, a)) == multiset(MapSeq(f, b))
    decreases |a|
  {
    if a != [] {
      assert a[0] in multiset(b);
      var j :| 0 <= j < |b| && b[j] == a[0];
      RemoveMatching(a, b, j);
      MapSeqMultiset(f, a[1..], b[..j] + b[j + 1..]);
      MapSeqRemove(f, a, 0);
      MapSeqRemove(f, b, j);
      assert a[..0] + a[1..] == a[1..];
      RemoveMatching(MapSeq(f, a), MapSeq(f, b), j);
    }
  }

  lemma MultisetAddBack<T>(m: multiset<T>, n: multiset<T>, x: T)
    requires x in m && x in n && m - multiset{x} == n - multiset{x}
    ensures m == n
  {
    assert m == (m - multiset{x}) + multiset{x};
    assert n == (n - multiset{x}) + multiset{x};
  }

  /** The digest does not depend on the order of the arguments. */
  lemma HashOrderIndependent<V>(sha: Digest<string>, dumps: V -> string, a: seq<V>, b: seq<V>)
    requires multiset(a) == multiset(b)
    ensures Hash(sha, dumps, a) == Hash(sha, dumps, b)
  {
    MapSeqMultiset(dumps, a, b);
    SortStringsSorts(MapSeq(dumps, a));
    SortStringsSorts(MapSeq(dumps, b));
    SortedPermutationUnique(SortStrings(MapSeq(dumps, a)), SortStrings(MapSeq(dumps, b)));
  }

  /** Every digest is a valid input of hex_to_binary, and expands to 256 bits. */
  lemma DigestIsBinaryExpandable<V>(sha: Digest<string>, dumps: V -> string, args: seq<V>)
    ensures IsHex(Hash(sha, dumps, args))
    ensures |HexToBinary(Hash(sha, dumps, args))| == 256
  {
  }
}
