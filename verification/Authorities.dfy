/** Reading an authority: a host name, lower-cased, and an optional port. */
module Authorities {
  import opened Options
  import opened Decimals

  datatype Authority = Authority(name: string, port: nat)

  function Lower(c: char): char {
    if 'A' <= c <= 'Z' then c + 32 as char else c
  }

  function LowerAll(s: string): (t: string)
    ensures |t| == |s| && forall i | 0 <= i < |s| :: t[i] == Lower(s[i])
  {
    seq(|s|, i requires 0 <= i < |s| => Lower(s[i]))
  }

  predicate NameChar(c: char) {
    'a' <= c <= 'z' || IsDigit(c) || c == '-'
  }

  // A dot among the 64 characters from i on.
  predicate DotWithin(s: string, i: int)
    requires 0 <= i <= |s| - 64
  {
    exists k | i <= k < i + 64 :: s[k] == '.'
  }

  // What every beginning of a host name satisfies: known characters, no label that is empty, starts or ends with a
  // hyphen before a dot, or is longer than 63 characters, and no more than 253 characters in all.
  predicate NameStart(s: string) {
    && |s| <= 253
    && (forall i | 0 <= i < |s| :: s[i] == '.' || NameChar(s[i]))
    && (forall i | 0 <= i < |s| && s[i] == '.' :: i > 0 && s[i - 1] != '.' && s[i - 1] != '-')
    && (forall i | 0 <= i < |s| && s[i] == '-' :: i > 0 && s[i - 1] != '.')
    && (forall i | 0 <= i <= |s| - 64 :: DotWithin(s, i))
  }

  /** A host name: its last label is not empty and does not end with a hyphen either. */
  predicate HostName(s: string) {
    NameStart(s) && s != "" && s[|s| - 1] != '.' && s[|s| - 1] != '-'
  }

  predicate PortNumber(s: string) {
    Canonical(s) && 1 <= Value(s) <= 65535
  }

  function NameEnd(text: string): (n: nat)
    ensures n <= |text| && (n < |text| ==> text[n] == ':')
    ensures forall k | 0 <= k < n :: text[k] != ':'
  {
    if text == "" || text[0] == ':' then 0 else 1 + NameEnd(text[1..])
  }

  /** The texts that name an authority. */
  predicate Acceptable(text: string) {
    var n := NameEnd(text);
    HostName(LowerAll(text[..n])) && (n < |text| ==> PortNumber(text[n + 1..]))
  }

  function Meaning(text: string, defaultPort: nat): Authority
    requires Acceptable(text)
  {
    var n := NameEnd(text);
    Authority(LowerAll(text[..n]), if n < |text| then Value(text[n + 1..]) else defaultPort)
  }

  lemma StartsEarly(s: string, k: nat)
    requires k <= |s| && NameStart(s)
    ensures NameStart(s[..k])
  {
    forall i | 0 <= i <= k - 64
      ensures DotWithin(s[..k], i)
    {
      assert DotWithin(s, i);
    }
  }

  // The last `run` characters are the label that is being read.
  predicate InLabel(s: string, run: nat) {
    && run <= |s| && run <= 63
    && (forall k | |s| - run <= k < |s| :: s[k] != '.')
    && (run < |s| ==> s[|s| - run - 1] == '.')
  }

  // What the loop asks about the next character.
  predicate Fits(s: string, run: nat, c: char) {
    && |s| < 253
    && if c == '.' then run > 0 && s != "" && s[|s| - 1] != '-'
       else NameChar(c) && !(run == 0 && c == '-') && run < 63
  }

  lemma OneMore(s: string, run: nat, c: char)
    requires NameStart(s) && InLabel(s, run)
    ensures NameStart(s + [c]) <==> Fits(s, run, c)
    ensures Fits(s, run, c) ==> InLabel(s + [c], if c == '.' then 0 else run + 1)
  {
    var t := s + [c];
    if Fits(s, run, c) {
      forall i | 0 <= i <= |t| - 64
        ensures DotWithin(t, i)
      {
        WindowHasDot(s, run, c, i);
      }
    }
    if c != '.' && run == 63 {
      assert !DotWithin(t, |t| - 64);
    }
    assert t[|s|] == c;
    assert |s| > 0 ==> t[|s| - 1] == s[|s| - 1];
    if NameStart(t) {
      StartsEarly(t, |s|);
    }
  }

  lemma WindowHasDot(s: string, run: nat, c: char, i: nat)
    requires NameStart(s) && InLabel(s, run) && Fits(s, run, c)
    requires i + 64 <= |s| + 1
    ensures DotWithin(s + [c], i)
  {
    var t := s + [c];
    if i + 64 <= |s| {
      assert DotWithin(s, i);
      var k :| i <= k < i + 64 && s[k] == '.';
      assert t[k] == '.';
    } else if c == '.' {
      assert t[i + 63] == '.';
    } else {
      assert t[|s| - run - 1] == '.';
    }
  }

  lemma NoneYet()
    ensures NameStart("") && InLabel("", 0)
  {
  }

  // A name whose last label ends at the end of the text.
  lemma LastLabel(s: string, run: nat)
    requires NameStart(s) && InLabel(s, run)
    ensures HostName(s) <==> run != 0 && s[|s| - 1] != '-'
    ensures run <= |s|
  {
  }

  /** The host name part: accepted exactly when its lower-cased text is a host name. */
  method ReadName(text: string) returns (name: Option<string>, n: nat)
    ensures name.Some? <==> HostName(LowerAll(text[..NameEnd(text)]))
    ensures name.Some? ==> n == NameEnd(text) && name.value == LowerAll(text[..n])
  {
    hide NameStart, InLabel;
    ghost var full := LowerAll(text[..NameEnd(text)]);
    NoneYet();
    n := 0;
    var run, s := 0, "";
    while n < |text| && text[n] != ':'
      invariant 0 <= n <= NameEnd(text)
      invariant s == full[..n] && NameStart(s) && InLabel(s, run)
    {
      var c := Lower(text[n]);
      OneMore(s, run, c);
      assert full[..n + 1] == s + [c];
      if !Fits(s, run, c) {
        if NameStart(full) {
          StartsEarly(full, n + 1);
        }
        return None, n;
      }
      run := if c == '.' then 0 else run + 1;
      s := s + [c];
      n := n + 1;
    }
    assert n == NameEnd(text);
    assert full[..n] == full;
    LastLabel(s, run);
    if run == 0 || s[|s| - 1] == '-' {
      return None, n;
    }
    return Some(s), n;
  }

  /** The port part: accepted exactly when it is the decimal text of a number from 1 to 65535. */
  method ReadPort(text: string) returns (port: Option<nat>)
    ensures port.Some? <==> PortNumber(text)
    ensures port.Some? ==> port.value == Value(text)
  {
    if |text| == 0 || (text[0] == '0' && |text| > 1) {
      return None;
    }
    var value: nat, i := 0, 0;
    while i < |text|
      invariant 0 <= i <= |text|
      invariant AllDigits(text[..i]) && value == Value(text[..i]) <= 65535
    {
      if !IsDigit(text[i]) {
        return None;
      }
      assert text[..i + 1][..i] == text[..i];
      value := value * 10 + DigitOf(text[i]);
      i := i + 1;
      if value > 65535 {
        if AllDigits(text) {
          PrefixSmaller(text, i);
        }
        return None;
      }
    }
    assert text[..i] == text;
    return if value == 0 then None else Some(value);
  }

  /** ankah_authority: accepts exactly the acceptable texts, and returns what they mean. */
  method ReadAuthority(text: string, defaultPort: nat) returns (r: Option<Authority>)
    ensures r.Some? <==> Acceptable(text)
    ensures r.Some? ==> r.value == Meaning(text, defaultPort)
  {
    hide HostName, PortNumber, LowerAll, NameEnd, Value;
    if |text| == 0 {
      EmptyIsRefused(text);
      return None;
    }
    var name, n := ReadName(text);
    if name.None? {
      return None;
    }
    if n == |text| {
      return Some(Authority(name.value, defaultPort));
    }
    var port := ReadPort(text[n + 1..]);
    if port.None? {
      return None;
    }
    return Some(Authority(name.value, port.value));
  }

  lemma EmptyIsRefused(text: string)
    requires text == ""
    ensures !Acceptable(text)
  {
  }

  lemma SamePort(p: string, q: string)
    requires LowerAll(p) == LowerAll(q)
    ensures PortNumber(p) ==> p == q
  {
    if PortNumber(p) {
      forall i | 0 <= i < |p|
        ensures p[i] == q[i]
      {
        assert LowerAll(p)[i] == LowerAll(q)[i];
      }
    }
  }

  lemma LowerPart(one: string, two: string, i: nat, j: nat)
    requires LowerAll(one) == LowerAll(two) && i <= j <= |one|
    ensures j <= |two| && LowerAll(one[i..j]) == LowerAll(two[i..j])
  {
    forall k | i <= k < j
      ensures Lower(one[k]) == Lower(two[k])
    {
      assert LowerAll(one)[k] == LowerAll(two)[k];
    }
  }

  lemma SameEnd(one: string, two: string)
    requires LowerAll(one) == LowerAll(two)
    ensures NameEnd(one) == NameEnd(two)
  {
    forall k | 0 <= k < |one|
      ensures one[k] == ':' <==> two[k] == ':'
    {
      assert LowerAll(one)[k] == LowerAll(two)[k];
    }
  }

  /** Authorities that differ only in the case of their letters mean the same. */
  lemma CaseDoesNotMatter(one: string, two: string, defaultPort: nat)
    requires LowerAll(one) == LowerAll(two)
    ensures Acceptable(one) <==> Acceptable(two)
    ensures Acceptable(one) ==> Meaning(one, defaultPort) == Meaning(two, defaultPort)
  {
    hide HostName, PortNumber, LowerAll, NameEnd, Value;
    var n := NameEnd(one);
    SameEnd(one, two);
    LowerPart(one, two, 0, n);
    assert one[0..n] == one[..n] && two[0..n] == two[..n];
    if n < |one| {
      LowerPart(one, two, n + 1, |one|);
      assert one[n + 1..|one|] == one[n + 1..] && two[n + 1..|two|] == two[n + 1..];
      SamePort(one[n + 1..], two[n + 1..]);
      SamePort(two[n + 1..], one[n + 1..]);
    }
  }

  /** An omitted port and the default port written out mean the same. */
  lemma DefaultPortMayBeOmitted(name: string, defaultPort: nat)
    requires ':' !in name && 1 <= defaultPort <= 65535
    ensures Acceptable(name) <==> Acceptable(name + ":" + Decimal(defaultPort))
    ensures Acceptable(name) ==> Meaning(name, defaultPort) == Meaning(name + ":" + Decimal(defaultPort), defaultPort)
  {
    hide HostName, LowerAll, Value, Canonical, NameEnd;
    var long := name + ":" + Decimal(defaultPort);
    assert name[..|name|] == name && long[..|name|] == name;
    assert long[|name|] == ':';
    assert long[|name| + 1..] == Decimal(defaultPort);
    DecimalCanonical(defaultPort);
  }
}
