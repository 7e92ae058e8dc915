/** The CPU's canonical text for a group of moved pieces: equal exactly for equal groups. */
module CpuGroupKey {
  import opened SequenceText

  // ----- The order of identifiers -----

  predicate LessEq(a: string, b: string) {
    a == [] || (b != [] && (a[0] < b[0] || (a[0] == b[0] && LessEq(a[1..], b[1..]))))
  }

  lemma {:induction false} LessEqAntisymmetric(a: string, b: string)
    requires LessEq(a, b) && LessEq(b, a)
    ensures a == b
  {
    if a != [] && b != [] {
      LessEqAntisymmetric(a[1..], b[1..]);
      assert a == [a[0]] + a[1..] && b == [b[0]] + b[1..];
    }
  }

  lemma {:induction false} LessEqTransitive(a: string, b: string, c: string)
    requires LessEq(a, b) && LessEq(b, c)
    ensures LessEq(a, c)
  {
    if a != [] && a[0] == b[0] && b[0] == c[0] {
      LessEqTransitive(a[1..], b[1..], c[1..]);
    }
  }

  lemma {:induction false} LessEqTotal(a: string, b: string)
    ensures LessEq(a, b) || LessEq(b, a)
  {
    if a != [] && b != [] && a[0] == b[0] {
      LessEqTotal(a[1..], b[1..]);
    }
  }

  ghost predicate Sorted(ids: seq<string>) {
    forall i, j :: 0 <= i <= j < |ids| ==> LessEq(ids[i], ids[j])
  }

  // ----- Sorting -----

  function Insert(id: string, ids: seq<string>): (r: seq<string>)
    ensures multiset(r) == multiset{id} + multiset(ids)
  {
    if ids == [] || LessEq(id, ids[0]) then [id] + ids
    else
      assert ids == [ids[0]] + ids[1..];
      [ids[0]] + Insert(id, ids[1..])
  }

  function Sort(ids: seq<string>): (r: seq<string>)
    ensures multiset(r) == multiset(ids)
  {
    if ids == [] then []
    else
      assert ids == [ids[0]] + ids[1..];
      Insert(ids[0], Sort(ids[1..]))
  }

  lemma {:induction false} InsertSorted(id: string, ids: seq<string>)
    requires Sorted(ids)
    ensures Sorted(Insert(id, ids))
  {
    if ids == [] || LessEq(id, ids[0]) {
      forall j | 0 <= j < |ids|
        ensures LessEq(id, ids[j])
      {
        LessEqTransitive(id, ids[0], ids[j]);
      }
      LessEqTotal(id, id);
    } else {
      LessEqTotal(id, ids[0]);
      LessEqTotal(ids[0], ids[0]);
      InsertSorted(id, ids[1..]);
      var rest := Insert(id, ids[1..]);
      forall j | 0 <= j < |rest|
        ensures LessEq(ids[0], rest[j])
      {
        assert rest[j] in multiset(rest);
        if rest[j] != id {
          assert rest[j] in multiset(ids[1..]);
          var k :| 0 <= k < |ids[1..]| && ids[1..][k] == rest[j];
          assert ids[k + 1] == rest[j];
        }
      }
    }
  }

  lemma {:induction false} SortSorted(ids: seq<string>)
    ensures Sorted(Sort(ids))
  {
    if ids != [] {
      SortSorted(ids[1..]);
      InsertSorted(ids[0], Sort(ids[1..]));
    }
  }

  lemma SortedHeadLeast(a: seq<string>, x: string)
    requires Sorted(a) && x in multiset(a)
    ensures a != [] && LessEq(a[0], x)
  {
    var k :| 0 <= k < |a| && a[k] == x;
  }

  lemma TailMultiset(ids: seq<string>)
    requires ids != []
    ensures multiset(ids[1..]) == multiset(ids) - multiset{ids[0]} && ids[0] in multiset(ids)
  {
    assert ids == [ids[0]] + ids[1..];
  }

  lemma SameHead(a: seq<string>, b: seq<string>)
    requires Sorted(a) && Sorted(b) && multiset(a) == multiset(b) && a != []
    ensures b != [] && a[0] == b[0]
  {
    hide LessEq;
    TailMultiset(a);
    SortedHeadLeast(b, a[0]);
    TailMultiset(b);
    SortedHeadLeast(a, b[0]);
    LessEqAntisymmetric(a[0], b[0]);
  }

  lemma {:induction false} SortedUnique(a: seq<string>, b: seq<string>)
    requires Sorted(a) && Sorted(b) && multiset(a) == multiset(b)
    ensures a == b
    decreases |a|
  {
    hide LessEq;
    if a == [] {
      if b != [] {
        SameHead(b, a);
      }
    } else {
      SameHead(a, b);
      TailMultiset(a);
      TailMultiset(b);
      SortedUnique(a[1..], b[1..]);
      assert a == [a[0]] + a[1..] && b == [b[0]] + b[1..];
    }
  }

  // ----- The length-prefixed text -----

  function EncodeOne(id: string): string {
    Format(|id|) + ":" + id
  }

  function Encode(ids: seq<string>): string {
    if ids == [] then "" else EncodeOne(ids[0]) + Encode(ids[1..])
  }

  function GroupKey(ids: seq<string>): string {
    Encode(Sort(ids))
  }

  lemma {:induction false} EncodeConcat(a: seq<string>, b: seq<string>)
    ensures Encode(a + b) == Encode(a) + Encode(b)
  {
    if a == [] {
      assert a + b == b;
    } else {
      assert (a + b)[1..] == a[1..] + b;
      EncodeConcat(a[1..], b);
    }
  }

  lemma EncodeSnoc(ids: seq<string>, id: string)
    ensures Encode(ids + [id]) == Encode(ids) + EncodeOne(id)
  {
    EncodeConcat(ids, [id]);
    assert [id][1..] == [];
    assert EncodeOne(id) + "" == EncodeOne(id);
  }

  /** Writes the sorted identifiers one after another. */
  method MovedGroupKey(ids: seq<string>) returns (key: string)
    ensures key == GroupKey(ids)
  {
    hide Encode, EncodeOne, Sort;
    var canonical := Sort(ids);
    key := "";
    EncodeNothing();
    for k := 0 to |canonical|
      invariant key == Encode(canonical[..k])
    {
      assert canonical[..k + 1] == canonical[..k] + [canonical[k]];
      EncodeSnoc(canonical[..k], canonical[k]);
      key := WriteOne(key, canonical[k]);
    }
    assert canonical[..|canonical|] == canonical;
  }

  /** The three writes of one identifier: its length, a colon, its text. */
  method WriteOne(builder: string, id: string) returns (text: string)
    ensures text == builder + EncodeOne(id)
  {
    hide Format;
    var length := Format(|id|);
    text := builder + length;
    text := text + ":";
    text := text + id;
    assert builder + length + ":" + id == builder + (length + ":" + id);
  }

  lemma EncodeNothing()
    ensures Encode([]) == ""
  {
  }

  lemma FormatInjective(m: nat, n: nat)
    requires Format(m) == Format(n)
    ensures m == n
  {
    FormatDenotes(m);
    FormatDenotes(n);
  }

  /** Digits end at the first colon, so the text before it is determined. */
  lemma PrefixDetermined(p: string, q: string, x: string, y: string)
    requires AllDigits(p) && AllDigits(q) && p + ":" + x == q + ":" + y
    ensures p == q && x == y
  {
    var whole := p + ":" + x;
    assert whole[|p|] == ':' && whole[|q|] == ':';
    assert |p| == |q|;
    assert p == whole[..|p|] && q == whole[..|q|];
    assert x == whole[|p| + 1..] && y == whole[|q| + 1..];
  }

  lemma {:induction false} EncodeInjective(a: seq<string>, b: seq<string>)
    requires Encode(a) == Encode(b)
    ensures a == b
    decreases |a|
  {
    if a == [] || b == [] {
      NonemptyEncode(a);
      NonemptyEncode(b);
    } else {
      var x, y := Encode(a[1..]), Encode(b[1..]);
      assert Encode(a) == Format(|a[0]|) + ":" + (a[0] + x);
      assert Encode(b) == Format(|b[0]|) + ":" + (b[0] + y);
      PrefixDetermined(Format(|a[0]|), Format(|b[0]|), a[0] + x, b[0] + y);
      FormatInjective(|a[0]|, |b[0]|);
      assert a[0] == (a[0] + x)[..|a[0]|] && b[0] == (b[0] + y)[..|b[0]|];
      assert x == (a[0] + x)[|a[0]|..] && y == (b[0] + y)[|b[0]|..];
      EncodeInjective(a[1..], b[1..]);
      assert a == [a[0]] + a[1..] && b == [b[0]] + b[1..];
    }
  }

  lemma NonemptyEncode(ids: seq<string>)
    ensures ids != [] ==> Encode(ids) != ""
  {
  }

  /** Two groups share a key exactly when they are the same identifiers with the same multiplicity, so
      deduplication by key merges equal groups and no others, in whatever order they are listed. */
  lemma GroupKeyExactly(a: seq<string>, b: seq<string>)
    ensures GroupKey(a) == GroupKey(b) <==> multiset(a) == multiset(b)
  {
    if GroupKey(a) == GroupKey(b) {
      EncodeInjective(Sort(a), Sort(b));
    }
    if multiset(a) == multiset(b) {
      SortSorted(a);
      SortSorted(b);
      SortedUnique(Sort(a), Sort(b));
    }
  }
}
