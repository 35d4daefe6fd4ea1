/** The end of the key range that stands for a prefix (etcd/__init__.py). */
module RangeEnd {
  type Byte = b: int | 0 <= b < 256

  /** Byte-lexicographic order, a proper prefix first. */
  predicate Less(a: seq<Byte>, b: seq<Byte>) {
    b != [] && (a == [] || a[0] < b[0] || (a[0] == b[0] && Less(a[1..], b[1..])))
  }

  predicate InRange(k: seq<Byte>, from: seq<Byte>, end: seq<Byte>) { !Less(k, from) && Less(k, end) }

  /** range_end: the last byte below 0xff is raised; what follows it stays. */
  method ComputeRangeEnd(key: seq<Byte>) returns (end: seq<Byte>)
    ensures end == Raised(key)
  {
    hide Raised;
    RaisedNothing();
    var arr := new Byte[|key|](i requires 0 <= i < |key| => key[i]);
    var i := |key|;
    assert key[..i] == key && key[i..] == [];
    while i > 0
      invariant 0 <= i <= |key| && arr[..] == key
      invariant Raised(key) == Raised(key[..i]) + key[i..]
    {
      i := i - 1;
      assert key[..i + 1] == key[..i] + [key[i]] && key[i..] == [key[i]] + key[i + 1..];
      RaisedLast(key[..i], key[i]);
      if arr[i] < 0xff {
        arr[i] := arr[i] + 1;
        assert arr[..] == key[..i] + [key[i] + 1] + key[i + 1..];
        return arr[..];
      }
    }
    assert key[..0] == [] && [] + key == key;
    return arr[..];
  }

  /** The key with its last byte below 0xff raised by one. */
  function Raised(key: seq<Byte>): (r: seq<Byte>)
    ensures |r| == |key|
  {
    if key == [] then []
    else
      var n := |key| - 1;
      if key[n] < 0xff then key[..n] + [key[n] + 1] else Raised(key[..n]) + [key[n]]
  }

  lemma RaisedNothing()
    ensures Raised([]) == []
  {
  }

  lemma RaisedLast(key: seq<Byte>, b: Byte)
    ensures Raised(key + [b]) == if b < 0xff then key + [b + 1] else Raised(key) + [b]
  {
    assert (key + [b])[..|key|] == key;
  }

  lemma {:induction false} LessSame(p: seq<Byte>, a: seq<Byte>, b: seq<Byte>)
    ensures Less(p + a, p + b) <==> Less(a, b)
  {
    if p == [] {
      assert p + a == a && p + b == b;
    } else {
      assert (p + a)[1..] == p[1..] + a && (p + b)[1..] == p[1..] + b;
      LessSame(p[1..], a, b);
    }
  }

  /** With the last byte below 0xff, the range is exactly the keys that begin with the key. */
  lemma {:induction false} RangeIsPrefix(p: seq<Byte>, b: Byte, k: seq<Byte>)
    requires b < 0xff
    ensures InRange(k, p + [b], p + [b + 1]) <==> p + [b] <= k
  {
    if p == [] {
      assert p + [b] == [b] && p + [b + 1] == [b + 1];
      if k != [] {
        assert Less(k, [b + 1]) <==> k[0] <= b;
        assert Less(k, [b]) <==> k[0] < b;
        assert [b] <= k <==> k[0] == b;
      }
    } else {
      var q, x, y := p[1..], p + [b], p + [b + 1];
      assert x[1..] == q + [b] && y[1..] == q + [b + 1];
      if k != [] {
        RangeIsPrefix(q, b, k[1..]);
        if k[0] == p[0] {
          PrefixStep(x, k);
        }
      }
    }
  }

  lemma PrefixStep(x: seq<Byte>, k: seq<Byte>)
    requires x != [] && k != [] && x[0] == k[0]
    ensures x <= k <==> x[1..] <= k[1..]
  {
    assert x == [x[0]] + x[1..] && k == [k[0]] + k[1..];
    if x[1..] <= k[1..] {
      assert k[1..] == x[1..] + k[1..][|x| - 1..];
      assert k == x + k[|x|..];
    }
  }

  /** The range selects key k just when it begins with the given key. */
  predicate Selected(key: seq<Byte>, k: seq<Byte>) { InRange(k, key, Raised(key)) <==> key <= k }

  /** get_prefix and watch select exactly the keys that begin with the given one if and only if it is not empty and
      its last byte is below 0xff; a namespace, which ends in a slash, is such a key. */
  lemma SelectsPrefixExactly(key: seq<Byte>)
    ensures (forall k :: Selected(key, k)) <==> key != [] && key[|key| - 1] < 0xff
  {
    if key == [] {
      assert !Selected(key, []);
    } else {
      var n := |key| - 1;
      var p, b := key[..n], key[n];
      assert key == p + [b];
      if b < 0xff {
        RaisedLast(p, b);
        forall k ensures Selected(key, k) {
          RangeIsPrefix(p, b, k);
        }
      } else {
        TrailingByteFails(p);
      }
    }
  }

  /** A last byte of 0xff is kept, so the range goes wrong: it misses all of them if every byte is 0xff, and otherwise
      takes in the shorter, raised key. */
  lemma TrailingByteFails(p: seq<Byte>)
    ensures exists k :: !Selected(p + [0xff], k)
  {
    var key := p + [0xff];
    RaisedLast(p, 0xff);
    var k := Raised(p);
    if k == p {
      Irreflexive(key);
      assert !Selected(key, key);
    } else {
      RaisedIsMore(p);
      LessSame(k, [], [0xff]);
      assert k + [] == k;
      assert Less(k, Raised(key));
      LessExtend(p, k, [0xff]);
      assert !Selected(key, k);
    }
  }

  lemma {:induction false} Irreflexive(a: seq<Byte>)
    ensures !Less(a, a)
  {
    if a != [] {
      Irreflexive(a[1..]);
    }
  }

  /** The raised key is greater, at a position inside it. */
  lemma {:induction false} RaisedIsMore(p: seq<Byte>)
    ensures Raised(p) != p ==> Less(p, Raised(p)) && !Less(Raised(p), p)
  {
    if p != [] {
      var n := |p| - 1;
      var init := p[..n];
      assert p == init + [p[n]];
      if p[n] < 0xff {
        LessSame(init, [p[n]], [p[n] + 1]);
        LessSame(init, [p[n] + 1], [p[n]]);
      } else {
        RaisedIsMore(init);
        if Raised(init) != init {
          LessExtendBoth(init, Raised(init), p[n]);
        }
      }
    }
  }

  lemma {:induction false} LessExtendBoth(a: seq<Byte>, b: seq<Byte>, x: Byte)
    requires |a| == |b| && Less(a, b) && !Less(b, a)
    ensures Less(a + [x], b + [x]) && !Less(b + [x], a + [x])
  {
    if a != [] {
      assert (a + [x])[1..] == a[1..] + [x] && (b + [x])[1..] == b[1..] + [x];
      if a[0] == b[0] {
        LessExtendBoth(a[1..], b[1..], x);
      }
    }
  }

  /** A key that is less, at a position inside it, stays less when it is extended. */
  lemma {:induction false} LessExtend(a: seq<Byte>, b: seq<Byte>, more: seq<Byte>)
    requires |a| == |b| && Less(a, b) && !Less(b, a)
    ensures !Less(b, a + more)
  {
    if a != [] {
      assert (a + more)[1..] == a[1..] + more;
      if a[0] == b[0] {
        LessExtend(a[1..], b[1..], more);
      }
    }
  }
}
