/** The three functions of Go's `strings` package that the engine uses:
    Split on ",", HasSuffix, and Replace with a count of one. */
module GoStrings {

  /** strings.Split(s, ","): the pieces between commas, in order. The empty
      string gives one empty piece. */
  function Split(s: string): (r: seq<string>)
    ensures |r| >= 1
    ensures forall k | 0 <= k < |r| :: ',' !in r[k]
    decreases |s|
  {
    if |s| == 0 then [""]
    else
      var rest := Split(s[1..]);
      if s[0] == ',' then [""] + rest
      else [[s[0]] + rest[0]] + rest[1..]
  }

  /** strings.Join(ps, ","), the inverse of Split. */
  function Join(ps: seq<string>): string
    decreases |ps|
  {
    if |ps| == 0 then ""
    else if |ps| == 1 then ps[0]
    else ps[0] + "," + Join(ps[1..])
  }

  /** Joining the pieces of a split gives back the string. */
  lemma {:induction false} JoinSplit(s: string)
    ensures Join(Split(s)) == s
    decreases |s|
  {
    if |s| > 0 {
      JoinSplit(s[1..]);
      var rest := Split(s[1..]);
      if s[0] == ',' {
        assert Split(s) == [""] + rest;
        calc {
          Join(Split(s));
          "" + "," + Join(rest);
          { assert s == [','] + s[1..]; }
          s;
        }
      } else {
        JoinCons(s[0], rest);
        assert s == [s[0]] + s[1..];
      }
    }
  }

  /** Prefixing a character to the first piece prefixes it to the join. */
  lemma JoinCons(c: char, ps: seq<string>)
    requires |ps| >= 1
    ensures Join([[c] + ps[0]] + ps[1..]) == [c] + Join(ps)
  {
    var qs := [[c] + ps[0]] + ps[1..];
    if |ps| == 1 {
      assert qs == [[c] + ps[0]];
    } else {
      var tail := ps[1..];
      assert qs[0] == [c] + ps[0] && qs[1..] == tail && |qs| > 1;
      calc {
        Join(qs);
        qs[0] + "," + Join(qs[1..]);
        ([c] + ps[0]) + "," + Join(tail);
        { SeqAssoc3([c], ps[0], ",", Join(tail)); }
        [c] + (ps[0] + "," + Join(tail));
        [c] + Join(ps);
      }
    }
  }

  lemma SeqAssoc3(a: string, b: string, c: string, d: string)
    ensures (a + b) + c + d == a + (b + c + d)
  {
  }

  /** Splitting a join of comma-free pieces gives back the pieces. */
  lemma {:induction false} SplitJoin(ps: seq<string>)
    requires |ps| >= 1
    requires forall k | 0 <= k < |ps| :: ',' !in ps[k]
    ensures Split(Join(ps)) == ps
    decreases |ps|, |ps[0]|
  {
    if |ps[0]| == 0 {
      if |ps| > 1 {
        SplitJoin(ps[1..]);
        var s := Join(ps);
        assert s == "," + Join(ps[1..]);
        assert s[1..] == Join(ps[1..]);
        assert Split(s) == [""] + ps[1..];
        assert ps == [""] + ps[1..];
      }
    } else {
      var c := ps[0][0];
      var ps' := [ps[0][1..]] + ps[1..];
      assert ps'[1..] == ps[1..];
      forall k | 0 <= k < |ps'| ensures ',' !in ps'[k] {
        if k == 0 {
          assert forall x | x in ps[0][1..] :: x in ps[0];
        }
      }
      SplitJoin(ps');
      JoinCons(c, ps');
      assert [[c] + ps'[0]] + ps'[1..] == ps by {
        assert [c] + ps[0][1..] == ps[0];
      }
      var s := Join(ps);
      assert s[0] == c && c != ',';
      assert s[1..] == Join(ps');
    }
  }

  /** strings.HasSuffix. */
  predicate HasSuffix(s: string, suffix: string) {
    |suffix| <= |s| && s[|s| - |suffix|..] == suffix
  }

  lemma HasHashSuffix(s: string)
    ensures HasSuffix(s, "#") <==> |s| >= 1 && s[|s| - 1] == '#'
  {
    if |s| >= 1 {
      assert s[|s| - 1..] == [s[|s| - 1]];
    }
  }

  /** The position of the first occurrence of c in s, or |s| when there is none. */
  function IndexOf(s: string, c: char): (j: nat)
    ensures j <= |s|
    ensures forall k | 0 <= k < j :: s[k] != c
    ensures j < |s| ==> s[j] == c
    decreases |s|
  {
    if |s| == 0 then 0
    else if s[0] == c then 0
    else 1 + IndexOf(s[1..], c)
  }

  /** strings.Replace(s, [from], [to], 1): only the first occurrence of
      the character `from` becomes `to`. */
  function ReplaceFirst(s: string, from: char, to: char): (r: string)
    ensures |r| == |s|
    ensures IndexOf(s, from) == |s| ==> r == s
    ensures IndexOf(s, from) < |s| ==> r == s[IndexOf(s, from) := to]
    decreases |s|
  {
    if |s| == 0 then s
    else if s[0] == from then [to] + s[1..]
    else [s[0]] + ReplaceFirst(s[1..], from, to)
  }
}
