/** `group_spaces`: a decimal written with its integer digits grouped in
    threes from the point leftwards and its fraction digits in threes from
    the point rightwards, groups separated by single spaces. */
module Grouping {
  import opened Wrappers
  import opened PyStr
  import opened Numbers

  /** `s[::-1]`. */
  function Reverse(s: string): (r: string)
    ensures |r| == |s| && forall i :: 0 <= i < |s| ==> r[i] == s[|s| - 1 - i]
  {
    if s == [] then [] else Reverse(s[1..]) + [s[0]]
  }

  lemma ReverseReverse(s: string)
    ensures Reverse(Reverse(s)) == s
  {
  }

  lemma ReverseConcat(a: string, b: string)
    ensures Reverse(a + b) == Reverse(b) + Reverse(a)
  {
  }

  /** The concatenation of a list of strings, `''.join(cs)`. */
  function Concat(cs: seq<string>): string
  {
    if cs == [] then "" else cs[0] + Concat(cs[1..])
  }

  /** `re.findall('.{1,3}', s)` on a string without line breaks: consecutive
      pieces of three characters from the left, the last one possibly shorter. */
  function Chunks(s: string): (cs: seq<string>)
    ensures forall i :: 0 <= i < |cs| ==> 1 <= |cs[i]| <= 3
    ensures forall i :: 0 <= i < |cs| - 1 ==> |cs[i]| == 3
    ensures s != [] <==> cs != []
    decreases |s|
  {
    if s == [] then [] else if |s| <= 3 then [s] else [s[..3]] + Chunks(s[3..])
  }

  /** The pieces of `Chunks` make up the string they were cut from. */
  lemma {:induction false} ChunksConcat(s: string)
    ensures Concat(Chunks(s)) == s
    decreases |s|
  {
    if |s| > 3 {
      ChunksConcat(s[3..]);
      assert ([s[..3]] + Chunks(s[3..]))[1..] == Chunks(s[3..]);
    }
  }

  /** Groups of three counted from the right: the first group has one to
      three characters, every later group exactly three. */
  function RightChunks(s: string): (cs: seq<string>)
    ensures forall i :: 0 <= i < |cs| ==> 1 <= |cs[i]| <= 3
    ensures forall i :: 0 < i < |cs| ==> |cs[i]| == 3
    ensures s != [] <==> cs != []
    decreases |s|
  {
    if s == [] then [] else if |s| <= 3 then [s] else RightChunks(s[..|s| - 3]) + [s[|s| - 3..]]
  }

  lemma {:induction false} JoinAppend(cs: seq<string>, x: string, sep: string)
    requires cs != []
    ensures Join(cs + [x], sep) == Join(cs, sep) + sep + x
    decreases |cs|
  {
    if |cs| == 1 {
      assert (cs + [x])[1..] == [x];
    } else {
      assert (cs + [x])[1..] == cs[1..] + [x];
      JoinAppend(cs[1..], x, sep);
    }
  }

  /** The integer part's grouping: reverse, cut from the left, join with
      spaces, reverse back. */
  function GroupFromRight(ip: string): string {
    Reverse(Join(Chunks(Reverse(ip)), " "))
  }

  /** The fraction part's grouping: cut from the left, join with spaces. */
  function GroupFromLeft(fp: string): string {
    Join(Chunks(fp), " ")
  }

  /** Reversing, cutting from the left and reversing back is the same as
      cutting into groups of three from the right. */
  lemma {:induction false} GroupFromRightSpec(s: string)
    ensures GroupFromRight(s) == Join(RightChunks(s), " ")
    decreases |s|
  {
    if s == [] {
    } else if |s| <= 3 {
      ReverseReverse(s);
    } else {
      var p, t := s[..|s| - 3], s[|s| - 3..];
      assert s == p + t;
      ReverseConcat(p, t);
      var rp := Reverse(p);
      var rest := Chunks(rp);
      assert Chunks(Reverse(s)) == [Reverse(t)] + rest by {
        assert Reverse(s)[..3] == Reverse(t);
        assert Reverse(s)[3..] == rp;
      }
      assert rest != [];
      assert Join([Reverse(t)] + rest, " ") == Reverse(t) + " " + Join(rest, " ") by {
        assert ([Reverse(t)] + rest)[1..] == rest;
      }
      assert Reverse(Reverse(t) + " ") == " " + t by {
        ReverseConcat(Reverse(t), " ");
        ReverseReverse(t);
        assert Reverse(" ") == " ";
      }
      assert RightChunks(s) == RightChunks(p) + [t];
      calc {
        GroupFromRight(s);
        Reverse(Reverse(t) + " " + Join(rest, " "));
        { ReverseConcat(Reverse(t) + " ", Join(rest, " ")); }
        Reverse(Join(rest, " ")) + (" " + t);
        { GroupFromRightSpec(p); }
        Join(RightChunks(p), " ") + " " + t;
        { JoinAppend(RightChunks(p), t, " "); }
        Join(RightChunks(s), " ");
      }
    }
  }

  /** `s.replace(" ", "")`. */
  function RemoveSpaces(s: string): (r: string)
    ensures ' ' !in r
  {
    if s == [] then "" else (if s[0] == ' ' then "" else [s[0]]) + RemoveSpaces(s[1..])
  }

  lemma {:induction false} RemoveSpacesConcat(a: string, b: string)
    ensures RemoveSpaces(a + b) == RemoveSpaces(a) + RemoveSpaces(b)
    decreases |a|
  {
    if a != [] {
      assert (a + b)[1..] == a[1..] + b;
      RemoveSpacesConcat(a[1..], b);
    } else {
      assert a + b == b;
    }
  }

  lemma {:induction false} RemoveSpacesNone(s: string)
    requires ' ' !in s
    ensures RemoveSpaces(s) == s
  {
    if s != [] {
      RemoveSpacesNone(s[1..]);
    }
  }

  lemma {:induction false} RemoveSpacesReverse(s: string)
    ensures RemoveSpaces(Reverse(s)) == Reverse(RemoveSpaces(s))
    decreases |s|
  {
    if s != [] {
      var h, t := (if s[0] == ' ' then "" else [s[0]]), RemoveSpaces(s[1..]);
      assert RemoveSpaces([s[0]]) == h by {
        assert [s[0]][1..] == [];
      }
      assert Reverse(h) == h;
      calc {
        RemoveSpaces(Reverse(s));
        RemoveSpaces(Reverse(s[1..]) + [s[0]]);
        { RemoveSpacesConcat(Reverse(s[1..]), [s[0]]); }
        RemoveSpaces(Reverse(s[1..])) + h;
        { RemoveSpacesReverse(s[1..]); }
        Reverse(t) + Reverse(h);
        { ReverseConcat(h, t); }
        Reverse(h + t);
      }
    }
  }

  /** Joining with spaces only adds spaces. */
  lemma {:induction false} RemoveSpacesJoin(cs: seq<string>)
    ensures RemoveSpaces(Join(cs, " ")) == RemoveSpaces(Concat(cs))
    decreases |cs|
  {
    if |cs| == 1 {
      assert cs[1..] == [];
      assert Concat(cs) == cs[0] + "" == cs[0];
    } else if |cs| > 1 {
      RemoveSpacesJoin(cs[1..]);
      RemoveSpacesConcat(cs[0] + " ", Join(cs[1..], " "));
      RemoveSpacesConcat(cs[0], " ");
      RemoveSpacesConcat(cs[0], Concat(cs[1..]));
    }
  }

  /** `group_spaces(d)`: `"0.0"` for zero; otherwise `str(d)` split at its
      point, each side grouped. A non-zero decimal written without a point
      makes the two-way unpacking of the split raise, which is `None`. */
  function GroupSpaces(d: Decimal): (r: Option<string>)
    ensures d.coefficient == 0 ==> r == Some("0.0")
    ensures d.coefficient != 0 ==> (r.Some? <==> d.places > 0)
  {
    if d.coefficient == 0 then Some("0.0")
    else
      var parts := Split(DecimalToString(d), '.');
      SplitAtPoint(d);
      if |parts| != 2 then None
      else Some(GroupFromRight(parts[0]) + "." + GroupFromLeft(parts[1]))
  }

  /** `str(d)` splits at `.` into two parts exactly when it has places. */
  lemma SplitAtPoint(d: Decimal)
    ensures |Split(DecimalToString(d), '.')| == 2 <==> d.places > 0
  {
    var s := DecimalToString(d);
    DecimalPointCount(d);
    SplitCount(s, '.');
  }

  /** The number of fields of a split is one more than the separators. */
  lemma {:induction false} SplitCount(s: string, sep: char)
    ensures |Split(s, sep)| == multiset(s)[sep] + 1
    decreases |s|
  {
    if s != [] {
      SplitCount(s[1..], sep);
      assert s == [s[0]] + s[1..];
      assert multiset(s) == multiset([s[0]]) + multiset(s[1..]);
    }
  }

  /** `str(d)` holds one `.` when it has places and none otherwise. */
  lemma DecimalPointCount(d: Decimal)
    ensures multiset(DecimalToString(d))['.'] == if d.places > 0 then 1 else 0
  {
    var m: nat := if d.coefficient < 0 then -d.coefficient else d.coefficient;
    var sign := if d.coefficient < 0 then "-" else "";
    var p := Pow10(d.places);
    DivMod(m, p);
    NoPoint(NatToString(m / p));
    NoPoint(NatToString(m));
    if d.places > 0 {
      PaddedRemainder(m % p, d.places);
      NoPoint(ZFill(NatToString(m % p), d.places));
      assert DecimalToString(d) == sign + NatToString(m / p) + "." + ZFill(NatToString(m % p), d.places);
    } else {
      assert DecimalToString(d) == sign + NatToString(m);
    }
  }

  lemma NoPoint(ds: string)
    requires AllDigits(ds)
    ensures multiset(ds)['.'] == 0 && ' ' !in ds
  {
    assert '.' !in ds;
  }

  /** Removing the spaces from the grouped text gives back `str(d)`. */
  lemma GroupSpacesRemoveSpaces(d: Decimal)
    requires d.coefficient != 0 && d.places > 0
    ensures GroupSpaces(d).Some? && RemoveSpaces(GroupSpaces(d).value) == DecimalToString(d)
  {
    var s := DecimalToString(d);
    var parts := Split(s, '.');
    SplitAtPoint(d);
    var ip, fp := parts[0], parts[1];
    assert s == ip + "." + fp by {
      JoinSplit(s, '.');
      assert Join(parts, ".") == ip + "." + Join(parts[1..], ".");
    }
    assert ' ' !in s by {
      DecimalStringNoSpace(d);
    }
    RemoveSpacesConcat(GroupFromRight(ip) + ".", GroupFromLeft(fp));
    RemoveSpacesConcat(GroupFromRight(ip), ".");
    assert RemoveSpaces(GroupFromRight(ip)) == ip by {
      RemoveSpacesReverse(Join(Chunks(Reverse(ip)), " "));
      RemoveSpacesJoin(Chunks(Reverse(ip)));
      ChunksConcat(Reverse(ip));
      RemoveSpacesReverse(ip);
      RemoveSpacesNone(ip);
      ReverseReverse(RemoveSpaces(ip));
    }
    assert RemoveSpaces(GroupFromLeft(fp)) == fp by {
      RemoveSpacesJoin(Chunks(fp));
      ChunksConcat(fp);
      RemoveSpacesNone(fp);
    }
    RemoveSpacesNone(".");
    RemoveSpacesNone(s);
  }

  lemma DecimalStringNoSpace(d: Decimal)
    ensures ' ' !in DecimalToString(d)
  {
    var m: nat := if d.coefficient < 0 then -d.coefficient else d.coefficient;
    var sign := if d.coefficient < 0 then "-" else "";
    var p := Pow10(d.places);
    DivMod(m, p);
    if d.places == 0 {
      IntegerString(d.coefficient);
      NoPoint(NatToString(m));
      NoSpaceConcat(sign, NatToString(m));
    } else {
      var ip, fp := NatToString(m / p), ZFill(NatToString(m % p), d.places);
      PointString(d, m, m / p, m % p);
      NoPoint(ip);
      PaddedRemainder(m % p, d.places);
      NoPoint(fp);
      NoSpaceConcat(ip, ".");
      NoSpaceConcat(ip + ".", fp);
      NoSpaceConcat(sign, ip + "." + fp);
    }
  }

  lemma NoSpaceConcat(a: string, b: string)
    requires ' ' !in a && ' ' !in b
    ensures ' ' !in a + b
  {
  }

  /** The grouping itself: integer digits in threes from the point leftwards,
      fraction digits in threes from the point rightwards. */
  lemma GroupSpacesShape(d: Decimal)
    requires d.coefficient != 0 && d.places > 0
    ensures var parts := Split(DecimalToString(d), '.');
      |parts| == 2 &&
      GroupSpaces(d) == Some(Join(RightChunks(parts[0]), " ") + "." + Join(Chunks(parts[1]), " "))
  {
    var parts := Split(DecimalToString(d), '.');
    SplitAtPoint(d);
    GroupFromRightSpec(parts[0]);
  }
}
