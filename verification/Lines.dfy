/** Splitting a sequence at a separator and joining it again. */
module Lines {
  /** The pieces between separators: always at least one. */
  function Split<T(==)>(s: seq<T>, sep: T): (pieces: seq<seq<T>>)
    ensures |pieces| >= 1
  {
    if s == [] then [[]]
    else
      var rest := Split(s[1..], sep);
      if s[0] == sep then [[]] + rest else [[s[0]] + rest[0]] + rest[1..]
  }

  function Join<T>(pieces: seq<seq<T>>, sep: seq<T>): seq<T>
    requires |pieces| >= 1
  {
    if |pieces| == 1 then pieces[0] else pieces[0] + sep + Join(pieces[1..], sep)
  }

  predicate OccursAt<T(==)>(s: seq<T>, pattern: seq<T>, i: int) {
    0 <= i <= |s| - |pattern| && s[i..i + |pattern|] == pattern
  }

  /** The pieces one after another. */
  function Concat<T>(pieces: seq<seq<T>>): seq<T> {
    if pieces == [] then [] else pieces[0] + Concat(pieces[1..])
  }

  lemma ConcatOne<T>(piece: seq<T>)
    ensures Concat([piece]) == piece
  {
    assert [piece][1..] == [];
  }

  lemma {:induction false} ConcatAppend<T>(a: seq<seq<T>>, b: seq<seq<T>>)
    ensures Concat(a + b) == Concat(a) + Concat(b)
  {
    if a == [] {
      assert a + b == b;
    } else {
      assert (a + b)[1..] == a[1..] + b;
      ConcatAppend(a[1..], b);
    }
  }

  lemma ConcatMore<T>(pieces: seq<seq<T>>, piece: seq<T>)
    ensures Concat(pieces + [piece]) == Concat(pieces) + piece
  {
    ConcatAppend(pieces, [piece]);
    ConcatOne(piece);
  }

  lemma {:induction false} SplitNoSep<T>(s: seq<T>, sep: T)
    requires sep !in s
    ensures Split(s, sep) == [s]
  {
    if s != [] {
      SplitNoSep(s[1..], sep);
      assert [s[0]] + s[1..] == s;
    }
  }

  /** A separator cuts a sequence in two independent halves. */
  lemma {:induction false} SplitAppend<T>(a: seq<T>, sep: T, b: seq<T>)
    ensures Split(a + [sep] + b, sep) == Split(a, sep) + Split(b, sep)
  {
    var whole := a + [sep] + b;
    if a == [] {
      assert whole[1..] == b;
    } else {
      assert whole[1..] == a[1..] + [sep] + b;
      SplitAppend(a[1..], sep, b);
    }
  }

  lemma {:induction false} SplitClean<T>(s: seq<T>, sep: T)
    ensures forall i :: 0 <= i < |Split(s, sep)| ==> sep !in Split(s, sep)[i]
  {
    if s != [] {
      SplitClean(s[1..], sep);
    }
  }

  lemma {:induction false} JoinSplit<T>(s: seq<T>, sep: T)
    ensures Join(Split(s, sep), [sep]) == s
  {
    if s != [] {
      JoinSplit(s[1..], sep);
      var rest := Split(s[1..], sep);
      var pieces := Split(s, sep);
      if s[0] == sep {
        assert pieces[1..] == rest;
      } else if |rest| > 1 {
        assert pieces[1..] == rest[1..];
      }
    }
  }

  lemma {:induction false} SplitJoin<T>(pieces: seq<seq<T>>, sep: T)
    requires |pieces| >= 1 && forall p :: p in pieces ==> sep !in p
    ensures Split(Join(pieces, [sep]), sep) == pieces
  {
    if |pieces| == 1 {
      SplitNoSep(pieces[0], sep);
    } else {
      SplitJoin(pieces[1..], sep);
      SplitNoSep(pieces[0], sep);
      SplitAppend(pieces[0], sep, Join(pieces[1..], [sep]));
      assert pieces == [pieces[0]] + pieces[1..];
    }
  }

  /** The text after a separator splits into the last pieces of the whole. */
  lemma SplitSuffix<T>(s: seq<T>, sep: T, i: nat)
    requires i < |s| && s[i] == sep
    ensures |Split(s[i + 1..], sep)| <= |Split(s, sep)|
    ensures Split(s[i + 1..], sep) == Split(s, sep)[|Split(s, sep)| - |Split(s[i + 1..], sep)|..]
    ensures Split(s[..i], sep) == Split(s, sep)[..|Split(s, sep)| - |Split(s[i + 1..], sep)|]
  {
    assert s == s[..i] + [sep] + s[i + 1..];
    SplitAppend(s[..i], sep, s[i + 1..]);
  }

  lemma {:induction false} SplitEndsClean<T>(s: seq<T>, sep: T)
    ensures Split(s + [sep], sep) == Split(s, sep) + [[]]
  {
    assert s + [sep] == s + [sep] + [];
    SplitAppend(s, sep, []);
  }
}
