/** Map keys built by joining fields with a bar, as internal/scraper/azure.go does,
    and exactly when such a key identifies the fields. */
module JoinedKeys {

  function Joined(fields: seq<string>): string {
    if |fields| == 0 then ""
    else if |fields| == 1 then fields[0]
    else fields[0] + "|" + Joined(fields[1..])
  }

  ghost predicate BarFree(fields: seq<string>) {
    forall i :: 0 <= i < |fields| ==> '|' !in fields[i]
  }

  function Bars(s: string): nat {
    if s == "" then 0 else (if s[0] == '|' then 1 else 0) + Bars(s[1..])
  }

  lemma {:induction false} BarsConcat(a: string, b: string)
    ensures Bars(a + b) == Bars(a) + Bars(b)
  {
    if a == "" {
      assert a + b == b;
    } else {
      assert (a + b)[1..] == a[1..] + b;
      BarsConcat(a[1..], b);
    }
  }

  lemma {:induction false} NoBarsIff(s: string)
    ensures Bars(s) == 0 <==> '|' !in s
  {
    if s != "" {
      NoBarsIff(s[1..]);
      assert s == [s[0]] + s[1..];
    }
  }

  function BarsWithin(fields: seq<string>): nat {
    if fields == [] then 0 else Bars(fields[0]) + BarsWithin(fields[1..])
  }

  lemma {:induction false} BarsOfJoined(fields: seq<string>)
    requires |fields| > 0
    ensures Bars(Joined(fields)) == |fields| - 1 + BarsWithin(fields)
  {
    if |fields| == 1 {
      assert fields[1..] == [];
    } else {
      BarsOfJoined(fields[1..]);
      BarsConcat(fields[0] + "|", Joined(fields[1..]));
      BarsConcat(fields[0], "|");
      assert "|"[1..] == "";
    }
  }

  lemma {:induction false} NoneWithinIff(fields: seq<string>)
    ensures BarsWithin(fields) == 0 <==> BarFree(fields)
  {
    if fields != [] {
      NoneWithinIff(fields[1..]);
      NoBarsIff(fields[0]);
      assert fields == [fields[0]] + fields[1..];
      assert BarFree(fields) <==> '|' !in fields[0] && BarFree(fields[1..]) by {
        assert forall i :: 0 <= i < |fields[1..]| ==> fields[1..][i] == fields[i + 1];
        assert forall i :: 0 < i < |fields| ==> fields[i] == fields[1..][i - 1];
      }
    }
  }

  /** Two joins of bar-free fields agree only if the fields do. */
  lemma {:induction false} BarFreeReadsBack(a: seq<string>, b: seq<string>)
    requires |a| == |b| && BarFree(a) && BarFree(b) && Joined(a) == Joined(b)
    ensures a == b
  {
    if |a| > 1 {
      FirstFieldReadsBack(a[0], Joined(a[1..]), b[0], Joined(b[1..]));
      BarFreeReadsBack(a[1..], b[1..]);
      assert a == [a[0]] + a[1..] && b == [b[0]] + b[1..];
    }
  }

  function FirstBar(s: string): nat {
    if s == [] || s[0] == '|' then 0 else 1 + FirstBar(s[1..])
  }

  lemma {:induction false} FirstBarAfter(a: string, rest: string)
    requires '|' !in a
    ensures FirstBar(a + "|" + rest) == |a|
  {
    if a == [] {
      assert (a + "|" + rest)[0] == '|';
    } else {
      assert (a + "|" + rest)[1..] == a[1..] + "|" + rest;
      FirstBarAfter(a[1..], rest);
    }
  }

  lemma FirstFieldReadsBack(a: string, x: string, b: string, y: string)
    requires '|' !in a && '|' !in b && a + "|" + x == b + "|" + y
    ensures a == b && x == y
  {
    FirstBarAfter(a, x);
    FirstBarAfter(b, y);
    var s := a + "|" + x;
    assert a == s[..|a|] && b == (b + "|" + y)[..|b|];
    assert x == s[|a| + 1..] && y == (b + "|" + y)[|b| + 1..];
  }

  lemma {:induction false} JoinedConcat(a: seq<string>, b: seq<string>)
    requires |a| > 0 && |b| > 0
    ensures Joined(a + b) == Joined(a) + "|" + Joined(b)
  {
    if |a| == 1 {
      assert (a + b)[1..] == b;
    } else {
      assert (a + b)[1..] == a[1..] + b;
      JoinedConcat(a[1..], b);
    }
  }

  lemma SameAfter(pre: seq<string>, x: seq<string>, y: seq<string>)
    requires |x| > 0 && |y| > 0 && Joined(x) == Joined(y)
    ensures Joined(pre + x) == Joined(pre + y)
  {
    if |pre| > 0 {
      JoinedConcat(pre, x);
      JoinedConcat(pre, y);
    } else {
      assert pre + x == x && pre + y == y;
    }
  }

  lemma SameBefore(x: seq<string>, y: seq<string>, post: seq<string>)
    requires |x| > 0 && |y| > 0 && Joined(x) == Joined(y)
    ensures Joined(x + post) == Joined(y + post)
  {
    if |post| > 0 {
      JoinedConcat(x, post);
      JoinedConcat(y, post);
    } else {
      assert x + post == x && y + post == y;
    }
  }

  /** Replacing neighbouring fields by others with the same join. */
  lemma JoinedMiddle(pre: seq<string>, x: seq<string>, y: seq<string>, post: seq<string>)
    requires |x| > 0 && |y| > 0 && Joined(x) == Joined(y)
    ensures Joined(pre + x + post) == Joined(pre + y + post)
  {
    SameAfter(pre, x, y);
    SameBefore(pre + x, pre + y, post);
  }

  lemma JoinedThree(a: string, b: string, c: string)
    ensures Joined([a, b, c]) == a + "|" + b + "|" + c
  {
    JoinedConcat([a], [b, c]);
    JoinedConcat([b], [c]);
    assert [a] + [b, c] == [a, b, c] && [b] + [c] == [b, c];
  }

  /** Five fields against five others that put the same seven texts together. */
  lemma SevenTextsTwoWays(x: string, u: string, v: string, w: string, s: string, r: string, t: string)
    ensures Joined([x, u, v, w, s + "|" + r + "|" + t]) == Joined([x, u + "|" + v + "|" + w, s, r, t])
  {
    JoinedThree(s, r, t);
    JoinedThree(u, v, w);
    SameAfter([x, u, v, w], [s + "|" + r + "|" + t], [s, r, t]);
    JoinedMiddle([x], [u + "|" + v + "|" + w], [u, v, w], [s, r, t]);
    assert [x, u, v, w] + [s + "|" + r + "|" + t] == [x, u, v, w, s + "|" + r + "|" + t];
    assert [x] + [u + "|" + v + "|" + w] + [s, r, t] == [x, u + "|" + v + "|" + w, s, r, t];
    assert [x] + [u, v, w] + [s, r, t] == [x, u, v, w] + [s, r, t];
  }

  lemma SplitAtBar(s: string) returns (a: string, b: string)
    requires '|' in s
    ensures s == a + "|" + b && |a| < |s| && |b| < |s|
  {
    var i :| 0 <= i < |s| && s[i] == '|';
    a, b := s[..i], s[i + 1..];
    assert s == s[..i] + [s[i]] + s[i + 1..];
  }

  lemma PairJoins(a: string, b: string, c: string)
    ensures Joined([a + "|" + b, c]) == Joined([a, b + "|" + c])
  {
    assert [a + "|" + b, c][1..] == [c] && [a, b + "|" + c][1..] == [b + "|" + c];
    assert (a + "|" + b) + "|" + c == a + "|" + (b + "|" + c);
  }

  /** A bar inside a field lets the boundary move. */
  lemma BarMovesBoundary(fields: seq<string>, i: nat) returns (other: seq<string>)
    requires i < |fields| && |fields| >= 2 && '|' in fields[i]
    ensures |other| == |fields| && other != fields && Joined(other) == Joined(fields)
  {
    var a, b := SplitAtBar(fields[i]);
    if i + 1 < |fields| {
      var pre, post := fields[..i], fields[i + 2..];
      other := pre + [a, b + "|" + fields[i + 1]] + post;
      PairJoins(a, b, fields[i + 1]);
      JoinedMiddle(pre, [fields[i], fields[i + 1]], [a, b + "|" + fields[i + 1]], post);
      assert fields == pre + [fields[i], fields[i + 1]] + post;
      assert other[i] == a;
    } else {
      var pre := fields[..i - 1];
      other := pre + [fields[i - 1] + "|" + a, b] + [];
      PairJoins(fields[i - 1], a, b);
      JoinedMiddle(pre, [fields[i - 1], fields[i]], [fields[i - 1] + "|" + a, b], []);
      assert fields == pre + [fields[i - 1], fields[i]] + [];
      assert other[i] == b;
    }
  }

  /** A join identifies its fields exactly when no field contains a bar. */
  lemma JoinedIdentifiesIff(fields: seq<string>)
    requires |fields| >= 2
    ensures (forall other: seq<string> :: |other| == |fields| && Joined(other) == Joined(fields) ==> other == fields)
            <==> BarFree(fields)
  {
    if BarFree(fields) {
      forall other: seq<string> | |other| == |fields| && Joined(other) == Joined(fields) ensures other == fields {
        BarsOfJoined(fields);
        BarsOfJoined(other);
        NoneWithinIff(fields);
        NoneWithinIff(other);
        BarFreeReadsBack(other, fields);
      }
    } else {
      var i :| 0 <= i < |fields| && '|' in fields[i];
      var other := BarMovesBoundary(fields, i);
    }
  }
}
