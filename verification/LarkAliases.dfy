/** What alias stripping removes from a rule expression, and what it leaves. */
module LarkAliases {
  import opened Text
  import opened LarkLexer
  import opened LarkTable

  predicate AllRegexSpace(s: string) {
    forall i :: 0 <= i < |s| ==> IsRegexSpace(s[i])
  }

  ghost predicate NoArrow(s: string) {
    forall k: nat :: !OccursAt(s, "->", k)
  }

  // ---------------------------------------------------------------- scanning

  lemma {:induction false} SpacesEnd(s: string, i: nat, j: nat)
    requires i <= j <= |s| && AllRegexSpace(s[i..j]) && (j < |s| ==> !IsRegexSpace(s[j]))
    ensures SkipSpaces(s, i) == j
    decreases j - i
  {
    if i < j {
      assert s[i..j][0] == s[i];
      var rest := s[i + 1..j];
      forall k | 0 <= k < |rest| ensures IsRegexSpace(rest[k]) { assert rest[k] == s[i..j][k + 1]; }
      SpacesEnd(s, i + 1, j);
    }
  }

  lemma {:induction false} SkipsSpaces(s: string, i: nat)
    requires i <= |s|
    ensures var j := SkipSpaces(s, i); AllRegexSpace(s[i..j]) && (j < |s| ==> !IsRegexSpace(s[j]))
    decreases |s| - i
  {
    if i < |s| && IsRegexSpace(s[i]) {
      SkipsSpaces(s, i + 1);
      var j := SkipSpaces(s, i + 1);
      assert s[i..j] == [s[i]] + s[i + 1..j];
    }
  }

  lemma {:induction false} IdentifierEnds(s: string, i: nat, j: nat)
    requires i <= j <= |s| && (forall k :: i <= k < j ==> IsIdentPart(s[k])) && (j < |s| ==> !IsIdentPart(s[j]))
    ensures SkipIdentifier(s, i) == j
    decreases j - i
  {
    if i < j { IdentifierEnds(s, i + 1, j); }
  }

  // ---------------------------------------------------------------- one arrow

  /** An alias with its white space is as long as its parts. */
  lemma AliasWhole(v: string, w: string, name: string, rest: string)
    requires AllRegexSpace(v) && AllRegexSpace(w) && IsIdentifier(name) && (rest != "" ==> !IsIdentPart(rest[0]))
    ensures AliasLength(v + "->" + w + name + rest) == |v| + 2 + |w| + |name|
  {
    var s := v + "->" + w + name + rest;
    var n := |v| + 2 + |w|;
    assert s[0..|v|] == v && s[|v|] == '-' && s[|v| + 1] == '>' && s[|v| + 2..n] == w && s[n] == name[0];
    SpacesEnd(s, 0, |v|);
    SpacesEnd(s, |v| + 2, n);
    forall k | n <= k < n + |name| ensures IsIdentPart(s[k]) { assert s[k] == name[k - n] && name[k - n] in name; }
    assert n + |name| < |s| ==> s[n + |name|] == rest[0];
    IdentifierEnds(s, n, n + |name|);
  }

  /** An arrow that no name follows is no alias. */
  lemma AliasDangling(v: string, w: string, rest: string)
    requires AllRegexSpace(v) && AllRegexSpace(w)
    requires rest != "" ==> !IsIdentStart(rest[0]) && !IsRegexSpace(rest[0])
    ensures AliasLength(v + "->" + w + rest) == 0
  {
    var s := v + "->" + w + rest;
    var n := |v| + 2 + |w|;
    assert s[0..|v|] == v && s[|v|] == '-' && s[|v| + 1] == '>' && s[|v| + 2..n] == w;
    assert n < |s| ==> s[n] == rest[0];
    SpacesEnd(s, 0, |v|);
    SpacesEnd(s, |v| + 2, n);
  }

  /** The front of a text is no alias where the first arrow comes after something that stays. */
  lemma NothingYet(a: string, rest: string)
    requires a != "" && NoArrow(a) && !IsRegexSpace(a[|a| - 1]) && (rest != "" ==> rest[0] != '>')
    ensures AliasLength(a + rest) == 0
  {
    var s := a + rest;
    var arrow := SkipSpaces(s, 0);
    SkipsSpaces(s, 0);
    assert a[|a| - 1] == s[|a| - 1];
    assert forall k :: 0 <= k < arrow ==> s[0..arrow][k] == s[k];
    assert arrow + 2 <= |a| ==> a[arrow..arrow + 2] == s[arrow..arrow + 2] && !OccursAt(a, "->", arrow);
    assert arrow + 1 == |a| < |s| ==> s[arrow + 1] == rest[0];
  }

  /** No alias starts at `k`. */
  predicate Quiet(s: string, k: nat)
    requires k <= |s|
  {
    AliasLength(s[k..]) == 0
  }

  lemma StripStep(s: string, i: nat)
    requires i < |s| && Quiet(s, i)
    ensures StripAliases(s[i..]) == [s[i]] + StripAliases(s[i + 1..])
  {
    assert s[i..][1..] == s[i + 1..];
  }

  lemma {:induction false} StripQuiet(s: string, i: nat, j: nat)
    requires i <= j <= |s| && forall k: nat :: i <= k < j ==> Quiet(s, k)
    ensures StripAliases(s[i..]) == s[i..j] + StripAliases(s[j..])
    decreases j - i
  {
    if i < j {
      StripStep(s, i);
      StripQuiet(s, i + 1, j);
      assert [s[i]] + (s[i + 1..j] + StripAliases(s[j..])) == s[i..j] + StripAliases(s[j..]);
    } else {
      assert s[i..j] == "";
    }
  }

  lemma RestNoArrow(a: string, i: nat)
    requires NoArrow(a) && i <= |a|
    ensures NoArrow(a[i..])
  {
    forall k: nat ensures !OccursAt(a[i..], "->", k) {
      assert k + 2 <= |a[i..]| ==> a[i..][k..k + 2] == a[i + k..i + k + 2];
      assert !OccursAt(a, "->", i + k);
    }
  }

  lemma StripsAfter(a: string, rest: string)
    requires NoArrow(a) && (a != "" ==> !IsRegexSpace(a[|a| - 1])) && (rest != "" ==> rest[0] != '>')
    ensures StripAliases(a + rest) == a + StripAliases(rest)
  {
    var s := a + rest;
    forall k: nat | k < |a| ensures Quiet(s, k) {
      RestNoArrow(a, k);
      NothingYet(a[k..], rest);
      assert s[k..] == a[k..] + rest;
    }
    StripQuiet(s, 0, |a|);
    assert s[0..] == s && s[0..|a|] == a && s[|a|..] == rest;
  }

  /** Up to the first arrow nothing changes; an alias goes, with the white space before and inside it. */
  lemma StripsAlias(a: string, v: string, w: string, name: string, rest: string)
    requires NoArrow(a) && (a != "" ==> !IsRegexSpace(a[|a| - 1])) && AllRegexSpace(v) && AllRegexSpace(w)
    requires IsIdentifier(name) && (rest != "" ==> !IsIdentPart(rest[0]))
    ensures StripAliases(a + (v + "->" + w + name + rest)) == a + StripAliases(rest)
  {
    var s := v + "->" + w + name + rest;
    assert s[0] == if v == "" then '-' else v[0];
    StripsAfter(a, s);
    AliasWhole(v, w, name, rest);
    assert s[|v| + 2 + |w| + |name|..] == rest;
  }

  /** White space in front belongs to an alias, and makes none. */
  lemma SpacesBefore(v: string, rest: string)
    requires AllRegexSpace(v)
    ensures AliasLength(v + rest) == if AliasLength(rest) == 0 then 0 else |v| + AliasLength(rest)
  {
    var s, n, arrow := v + rest, |v|, SkipSpaces(rest, 0);
    SkipsSpaces(rest, 0);
    assert s[0..n + arrow] == v + rest[0..arrow];
    SpacesEnd(s, 0, n + arrow);
    assert s[n + arrow..] == rest[arrow..];
    if "->" <= rest[arrow..] {
      SpacesShift(v, rest, arrow + 2);
      IdentifierShift(v, rest, SkipSpaces(rest, arrow + 2));
    }
  }

  lemma {:induction false} SpacesShift(v: string, rest: string, i: nat)
    requires i <= |rest|
    ensures SkipSpaces(v + rest, |v| + i) == |v| + SkipSpaces(rest, i)
    decreases |rest| - i
  {
    if i < |rest| { SpacesShift(v, rest, i + 1); }
  }

  lemma {:induction false} IdentifierShift(v: string, rest: string, i: nat)
    requires i <= |rest|
    ensures SkipIdentifier(v + rest, |v| + i) == |v| + SkipIdentifier(rest, i)
    decreases |rest| - i
  {
    if i < |rest| { IdentifierShift(v, rest, i + 1); }
  }

  lemma StripsSpaces(v: string, rest: string)
    requires AllRegexSpace(v) && AliasLength(rest) == 0
    ensures StripAliases(v + rest) == v + StripAliases(rest)
  {
    var s := v + rest;
    forall k: nat | k < |v| ensures Quiet(s, k) {
      SpacesBefore(v[k..], rest);
      assert s[k..] == v[k..] + rest;
    }
    StripQuiet(s, 0, |v|);
    assert s[0..] == s && s[0..|v|] == v && s[|v|..] == rest;
  }

  lemma ArrowStays(rest: string)
    requires AliasLength("->" + rest) == 0
    ensures StripAliases("->" + rest) == "->" + StripAliases(rest)
  {
    var s := "->" + rest;
    assert s[0..] == s && s[0..2] == "->" && s[2..] == rest;
    assert SkipSpaces(s[1..], 0) == 0;
    assert Quiet(s, 0) && Quiet(s, 1);
    StripQuiet(s, 0, 2);
  }

  /** An arrow that no name follows stays, and so does the white space before it. */
  lemma KeepsArrow(a: string, v: string, w: string, rest: string)
    requires NoArrow(a) && (a != "" ==> !IsRegexSpace(a[|a| - 1])) && AllRegexSpace(v) && AllRegexSpace(w)
    requires rest != "" ==> !IsIdentStart(rest[0]) && !IsRegexSpace(rest[0])
    ensures StripAliases(a + (v + ("->" + (w + rest)))) == a + (v + ("->" + StripAliases(w + rest)))
  {
    var s := "->" + (w + rest);
    assert (v + s)[0] == if v == "" then '-' else v[0];
    StripsAfter(a, v + s);
    assert "" + "->" + w + rest == s;
    AliasDangling("", w, rest);
    StripsSpaces(v, s);
    ArrowStays(w + rest);
  }
}
