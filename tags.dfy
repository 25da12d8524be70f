/** The tag parser: a field's `ss:"..."` tag value becomes its list of
    directives (alias, "omitempty", a time layout). A piece ending in '#'
    escapes the comma after it: it is joined, without the '#', to the next
    piece. */
module TagParser {
  import opened Types
  import opened GoStrings

  predicate Escaped(piece: string) {
    HasSuffix(piece, "#")
  }

  /** An escaped piece joined with the one after it. */
  function Merge(piece: string, next: string): string
    requires |piece| > 0
  {
    piece[..|piece| - 1] + "," + next
  }

  function Prepend(done: seq<string>, rest: Option<seq<string>>): Option<seq<string>> {
    if rest.Some? then Some(done + rest.value) else None
  }

  lemma PrependNothing(rest: Option<seq<string>>)
    ensures Prepend([], rest) == rest
  {
    if rest.Some? {
      assert [] + rest.value == rest.value;
    }
  }

  lemma PrependPrepend(a: seq<string>, b: seq<string>, rest: Option<seq<string>>)
    ensures Prepend(a, Prepend(b, rest)) == Prepend(a + b, rest)
  {
    if rest.Some? {
      assert a + (b + rest.value) == (a + b) + rest.value;
    }
  }

  /** The pieces of a split, read left to right: an escaped piece absorbs
      the next raw piece, and the merged piece is not looked at again. None
      stands for the index-out-of-range panic on an escaped piece that has
      nothing after it. */
  function Unescape(pieces: seq<string>): (r: Option<seq<string>>)
    ensures r.Some? ==> |r.value| <= |pieces| && 2 * |r.value| >= |pieces|
    ensures r.Some? && |pieces| > 0 ==> |r.value| > 0
    decreases |pieces|
  {
    if |pieces| == 0 then Some([])
    else if Escaped(pieces[0]) then
      if |pieces| == 1 then None
      else Prepend([Merge(pieces[0], pieces[1])], Unescape(pieces[2..]))
    else Prepend([pieces[0]], Unescape(pieces[1..]))
  }

  /** What getTags returns for a tag value (None: it panics). */
  function Tags(tagStr: string): Option<seq<string>> {
    Unescape(Split(tagStr))
  }

  /** getTags: split on ',', then walk the ORIGINAL number of positions while
      the slice shrinks under the loop, merging each escaped piece with its
      successor in place. */
  method GetTags(tagStr: string) returns (r: Option<seq<string>>)
    ensures r == Tags(tagStr)
  {
    var res := Split(tagStr);
    ghost var pieces := res;
    var n := |res|;
    assert res[..0] == [] && res[0..] == res;
    PrependNothing(Unescape(res));
    for i := 0 to n
      invariant |res| <= n
      invariant i <= |res| ==> Unescape(pieces) == Prepend(res[..i], Unescape(res[i..]))
      invariant i > |res| ==> Unescape(pieces) == Some(res)
    {
      if |res| >= i + 1 && HasSuffix(res[i], "#") {
        if i + 1 >= |res| {
          // res[i+1] is out of range: Go panics here
          return None;
        }
        ghost var before := res;
        res := res[i := res[i][..|res[i]| - 1] + "," + res[i + 1]];
        // |res| >= i + 2 always holds here, so the source's fallback
        // truncation after this append is unreachable.
        res := res[..i + 1] + res[i + 2..];
        assert res[..i + 1] == before[..i] + [Merge(before[i], before[i + 1])];
        assert res[i + 1..] == before[i + 2..];
        assert before[i..][2..] == before[i + 2..];
        PrependPrepend(before[..i], [Merge(before[i], before[i + 1])], Unescape(before[i + 2..]));
        continue;
      }
      if i < |res| {
        assert res[..i + 1] == res[..i] + [res[i]];
        assert res[i..][1..] == res[i + 1..];
        PrependPrepend(res[..i], [res[i]], Unescape(res[i + 1..]));
      } else if i == |res| {
        assert res[..i] + [] == res && res[i..] == [];
      }
    }
    if n <= |res| {
      assert res[..n] + [] == res && res[n..] == [];
    }
    return Some(res);
  }

  /** With no escaped piece, getTags is plain splitting on ','. */
  lemma {:induction false} UnescapeNoEscape(pieces: seq<string>)
    requires forall k | 0 <= k < |pieces| :: !Escaped(pieces[k])
    ensures Unescape(pieces) == Some(pieces)
    decreases |pieces|
  {
    if |pieces| > 0 {
      UnescapeNoEscape(pieces[1..]);
      assert pieces == [pieces[0]] + pieces[1..];
    }
  }

  lemma TagsNoEscape(tagStr: string)
    requires forall k | 0 <= k < |Split(tagStr)| :: !Escaped(Split(tagStr)[k])
    ensures Tags(tagStr) == Some(Split(tagStr))
  {
    UnescapeNoEscape(Split(tagStr));
  }

  /** Unescaping works group by group: once a prefix has been consumed
      without a panic, the pieces after it are unescaped on their own. */
  lemma {:induction false} UnescapeAppend(a: seq<string>, b: seq<string>)
    requires Unescape(a).Some?
    ensures Unescape(a + b) == Prepend(Unescape(a).value, Unescape(b))
    decreases |a|
  {
    if |a| > 0 {
      var ab := a + b;
      assert ab[0] == a[0];
      if Escaped(a[0]) {
        assert ab[1] == a[1];
        assert ab[2..] == a[2..] + b;
        UnescapeAppend(a[2..], b);
        PrependPrepend([Merge(a[0], a[1])], Unescape(a[2..]).value, Unescape(b));
      } else {
        assert ab[1..] == a[1..] + b;
        UnescapeAppend(a[1..], b);
        PrependPrepend([a[0]], Unescape(a[1..]).value, Unescape(b));
      }
    } else {
      assert a + b == b;
      PrependNothing(Unescape(b));
    }
  }

  /** A single escaped piece followed by another piece: the two become one,
      the length drops by exactly one, and the absorbed piece is not
      examined even if it ends in '#' itself. */
  lemma SingleEscape(pieces: seq<string>, k: nat)
    requires k + 1 < |pieces| && Escaped(pieces[k])
    requires forall j | 0 <= j < |pieces| && j != k && j != k + 1 :: !Escaped(pieces[j])
    ensures Unescape(pieces) == Some(pieces[..k] + [Merge(pieces[k], pieces[k + 1])] + pieces[k + 2..])
    ensures |Unescape(pieces).value| == |pieces| - 1
  {
    var pre := pieces[..k];
    var post := pieces[k + 2..];
    forall j | 0 <= j < |pre| ensures !Escaped(pre[j]) {
      assert pre[j] == pieces[j];
    }
    forall j | 0 <= j < |post| ensures !Escaped(post[j]) {
      assert post[j] == pieces[k + 2 + j];
    }
    assert pieces == pre + ([pieces[k], pieces[k + 1]] + post);
    EscapeThenPlain(pieces[k], pieces[k + 1], post);
    UnescapeNoEscape(pre);
    UnescapeAppend(pre, [pieces[k], pieces[k + 1]] + post);
    assert pre + ([Merge(pieces[k], pieces[k + 1])] + post) == pre + [Merge(pieces[k], pieces[k + 1])] + post;
  }

  /** An escaped piece, the piece it absorbs, then pieces with no escape. */
  lemma EscapeThenPlain(x: string, y: string, post: seq<string>)
    requires Escaped(x)
    requires forall j | 0 <= j < |post| :: !Escaped(post[j])
    ensures Unescape([x, y] + post) == Some([Merge(x, y)] + post)
  {
    UnescapeNoEscape(post);
    UnescapePair(x, y);
    UnescapeAppend([x, y], post);
  }

  lemma UnescapePair(x: string, y: string)
    requires Escaped(x)
    ensures Unescape([x, y]) == Some([Merge(x, y)])
  {
    assert [x, y][2..] == [];
    assert [Merge(x, y)] + [] == [Merge(x, y)];
  }

  /** An escaped piece with nothing left to absorb makes getTags panic. */
  lemma TrailingEscapePanics(a: seq<string>, last: string)
    requires Unescape(a).Some? && Escaped(last)
    ensures Unescape(a + [last]) == None
  {
    UnescapeAppend(a, [last]);
  }
}
