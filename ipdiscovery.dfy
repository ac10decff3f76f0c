/**
 * The lease-output matcher of the IP discovery phase: a hand-written equivalent of
 * the regular expression `ipv4\s+([0-9]+\.[0-9]+\.[0-9]+\.[0-9]+)` without the `g`
 * flag, which yields the capture group of the leftmost match.
 */
module IpDiscovery {
  import opened Text
  import opened Wrappers

  predicate IsDot(c: char) { c == '.' }

  /** Given a digit run starting at `i`, the end of that run if at least one digit is
      there and it is followed by a dot; the position of the dot otherwise is `None`. */
  function DigitsThenDot(s: string, i: nat): (r: Option<nat>)
    requires i <= |s|
    ensures r.Some? ==> i < r.value < |s| && s[r.value] == '.'
  {
    var e := SpanEnd(s, i, Digit);
    if e == i || e == |s| || s[e] != '.' then None else Some(e)
  }

  /** End of the dotted quad `[0-9]+\.[0-9]+\.[0-9]+\.[0-9]+` starting at `w`, if there is one;
      the last digit run is taken whole. */
  function QuadEnd(s: string, w: nat): (r: Option<nat>)
    requires w <= |s|
    ensures r.Some? ==> w < r.value <= |s|
  {
    match DigitsThenDot(s, w)
    case None => None
    case Some(x) =>
      match DigitsThenDot(s, x + 1)
      case None => None
      case Some(y) =>
        match DigitsThenDot(s, y + 1)
        case None => None
        case Some(z) =>
          var e := SpanEnd(s, z + 1, Digit);
          if e == z + 1 then None else Some(e)
  }

  /** The captured address when the pattern matches at position `p`. Greedy `\s+` and
      `[0-9]+` need no backtracking here: white space, digits and dots are disjoint, so
      each run is taken whole and the last digit run is the longest one available. */
  function MatchAt(s: string, p: nat): Option<string> {
    if !TagAt(s, p) then None
    else
      var w := SpanEnd(s, p + 4, Space);
      if w == p + 4 then None
      else match QuadEnd(s, w)
        case None => None
        case Some(e) => Some(s[w..e])
  }

  ghost predicate AllIn(s: string, i: nat, j: nat, p: Class)
    requires i <= j <= |s|
  {
    forall k :: i <= k < j ==> In(p, s[k])
  }

  /** `ipv4` starts at `p`. */
  predicate TagAt(s: string, p: nat) {
    p + 4 <= |s| && s[p..p + 4] == "ipv4"
  }

  /** Four non-empty digit runs `[w..x)`, `(x..y)`, `(y..z)`, `(z..e)` separated by the dots
      at `x`, `y`, `z`, with no further digit at `e`. */
  ghost predicate QuadAt(s: string, w: nat, x: nat, y: nat, z: nat, e: nat) {
    && w < x && x + 1 < y && y + 1 < z && z + 1 < e <= |s|
    && AllIn(s, w, x, Digit) && s[x] == '.'
    && AllIn(s, x + 1, y, Digit) && s[y] == '.'
    && AllIn(s, y + 1, z, Digit) && s[z] == '.'
    && AllIn(s, z + 1, e, Digit)
    && (e == |s| || !IsDigit(s[e]))
  }

  /** The declarative reading of one match at `p`: `ipv4`, a non-empty white-space run
      ending at `w`, and a dotted quad from `w` to `e` where no further digit follows.
      The address is `s[w..e]`. */
  ghost predicate TokenAt(s: string, p: nat, w: nat, x: nat, y: nat, z: nat, e: nat) {
    && TagAt(s, p) && p + 4 < w <= |s|
    && AllIn(s, p + 4, w, Space)
    && QuadAt(s, w, x, y, z, e)
  }

  /** A dotted quad: four non-empty digit runs joined by three dots. */
  ghost predicate IsDottedQuad(a: string) {
    exists x: nat, y: nat, z: nat :: DottedQuadAt(a, x, y, z)
  }

  ghost predicate DottedQuadAt(a: string, x: nat, y: nat, z: nat) {
    QuadAt(a, 0, x, y, z, |a|)
  }

  lemma DigitIsNotSpace(c: char)
    requires IsDigit(c)
    ensures !IsSpace(c)
  {
  }

  /** Every address the matcher returns comes from a declarative match. */
  lemma MatchAtSound(s: string, p: nat)
    requires MatchAt(s, p).Some?
    ensures exists w: nat, x: nat, y: nat, z: nat, e: nat ::
      TokenAt(s, p, w, x, y, z, e) && MatchAt(s, p).value == s[w..e]
  {
    var w := SpanEnd(s, p + 4, Space);
    var e := QuadEnd(s, w).value;
    var x, y, z := QuadEndSound(s, w);
    assert TokenAt(s, p, w, x, y, z, e);
  }

  /** The end found by `QuadEnd` closes a dotted quad; the dots are returned. */
  lemma QuadEndSound(s: string, w: nat) returns (x: nat, y: nat, z: nat)
    requires w <= |s| && QuadEnd(s, w).Some?
    ensures QuadAt(s, w, x, y, z, QuadEnd(s, w).value)
  {
    x := DigitsThenDot(s, w).value;
    y := DigitsThenDot(s, x + 1).value;
    z := DigitsThenDot(s, y + 1).value;
  }

  /** Every declarative match is found, with the same address. */
  lemma MatchAtComplete(s: string, p: nat, w: nat, x: nat, y: nat, z: nat, e: nat)
    requires TokenAt(s, p, w, x, y, z, e)
    ensures MatchAt(s, p) == Some(s[w..e])
  {
    DigitIsNotSpace(s[w]);
    SpanEndUnique(s, p + 4, Space, w);
    QuadEndComplete(s, w, x, y, z, e);
  }

  lemma QuadEndComplete(s: string, w: nat, x: nat, y: nat, z: nat, e: nat)
    requires QuadAt(s, w, x, y, z, e)
    ensures QuadEnd(s, w) == Some(e)
  {
    SpanEndUnique(s, w, Digit, x);
    SpanEndUnique(s, x + 1, Digit, y);
    SpanEndUnique(s, y + 1, Digit, z);
    SpanEndUnique(s, z + 1, Digit, e);
  }

  /** The matched text is a dotted quad, so never empty. */
  lemma MatchIsDottedQuad(s: string, p: nat)
    requires MatchAt(s, p).Some?
    ensures IsDottedQuad(MatchAt(s, p).value)
    ensures MatchAt(s, p).value != ""
  {
    MatchAtSound(s, p);
    var w: nat, x: nat, y: nat, z: nat, e: nat :| TokenAt(s, p, w, x, y, z, e) && MatchAt(s, p).value == s[w..e];
    var a := s[w..e];
    assert DottedQuadAt(a, x - w, y - w, z - w) by {
      assert forall k :: 0 <= k < |a| ==> a[k] == s[w + k];
    }
  }

  /** Position of the leftmost match at or after `i`. */
  function FirstMatchFrom(s: string, i: nat): (r: Option<nat>)
    ensures r.Some? ==> i <= r.value <= |s| && MatchAt(s, r.value).Some?
    ensures r.Some? ==> forall q :: i <= q < r.value ==> MatchAt(s, q).None?
    ensures r.None? ==> forall q :: i <= q ==> MatchAt(s, q).None?
    decreases |s| + 1 - i
  {
    if i > |s| then None
    else if MatchAt(s, i).Some? then Some(i)
    else FirstMatchFrom(s, i + 1)
  }

  /** `output.match(...)?.[1]`: the address of the leftmost match, if any. */
  function FindIp(s: string): (r: Option<string>)
    ensures r.Some? ==> exists p: nat :: MatchAt(s, p) == r && forall q :: 0 <= q < p ==> MatchAt(s, q).None?
    ensures r.None? ==> forall p: nat :: MatchAt(s, p).None?
  {
    match FirstMatchFrom(s, 0)
    case None => None
    case Some(p) => MatchAt(s, p)
  }

  /** The address found is a well-formed dotted quad, hence not empty. */
  lemma FindIpIsDottedQuad(s: string)
    requires FindIp(s).Some?
    ensures IsDottedQuad(FindIp(s).value) && FindIp(s).value != ""
  {
    MatchIsDottedQuad(s, FirstMatchFrom(s, 0).value);
  }

  /** A lease line `ipv4<white space><a>.<b>.<c>.<d>` yields exactly its address, whatever
      non-digit text (such as a `/24` prefix length) follows it. */
  lemma LeaseLineYieldsAddress(ws: string, a: string, b: string, c: string, d: string, rest: string)
    requires |ws| > 0 && AllIn(ws, 0, |ws|, Space)
    requires |a| > 0 && AllIn(a, 0, |a|, Digit)
    requires |b| > 0 && AllIn(b, 0, |b|, Digit)
    requires |c| > 0 && AllIn(c, 0, |c|, Digit)
    requires |d| > 0 && AllIn(d, 0, |d|, Digit)
    requires rest == [] || !IsDigit(rest[0])
    ensures FindIp("ipv4" + ws + (a + "." + b + "." + c + "." + d) + rest) == Some(a + "." + b + "." + c + "." + d)
  {
    var ip := a + "." + b + "." + c + "." + d;
    var s := "ipv4" + ws + ip + rest;
    QuadLayout(a, b, c, d);
    var w := 4 + |ws|;
    assert TagAt(s, 0) by { assert s[0..4] == "ipv4"; }
    assert s[w..w + |ip|] == ip;
    assert AllIn(s, 4, w, Space) by {
      forall k | 4 <= k < w ensures IsSpace(s[k]) {
        assert s[k] == ws[k - 4];
      }
    }
    assert w + |ip| < |s| ==> s[w + |ip|] == rest[0];
    MatchOfQuad(s, 0, w, ip, |a|, |a| + 1 + |b|, |a| + 1 + |b| + 1 + |c|);
  }

  /** Where the four digit runs and three dots of `a.b.c.d` lie. */
  lemma QuadLayout(a: string, b: string, c: string, d: string)
    requires |a| > 0 && AllIn(a, 0, |a|, Digit)
    requires |b| > 0 && AllIn(b, 0, |b|, Digit)
    requires |c| > 0 && AllIn(c, 0, |c|, Digit)
    requires |d| > 0 && AllIn(d, 0, |d|, Digit)
    ensures DottedQuadAt(a + "." + b + "." + c + "." + d, |a|, |a| + 1 + |b|, |a| + 1 + |b| + 1 + |c|)
  {
    var ip := a + "." + b + "." + c + "." + d;
    var x := |a|;
    var y := x + 1 + |b|;
    var z := y + 1 + |c|;
    assert AllIn(ip, 0, x, Digit) by {
      forall k | 0 <= k < x ensures IsDigit(ip[k]) { assert ip[k] == a[k]; }
    }
    assert AllIn(ip, x + 1, y, Digit) by {
      forall k | x + 1 <= k < y ensures IsDigit(ip[k]) { assert ip[k] == b[k - x - 1]; }
    }
    assert AllIn(ip, y + 1, z, Digit) by {
      forall k | y + 1 <= k < z ensures IsDigit(ip[k]) { assert ip[k] == c[k - y - 1]; }
    }
    assert AllIn(ip, z + 1, |ip|, Digit) by {
      forall k | z + 1 <= k < |ip| ensures IsDigit(ip[k]) { assert ip[k] == d[k - z - 1]; }
    }
  }

  /** A dotted quad written after `ipv4` and white space, and not followed by a digit, is the match. */
  lemma MatchOfQuad(s: string, p: nat, w: nat, ip: string, x: nat, y: nat, z: nat)
    requires TagAt(s, p) && p + 4 < w && w + |ip| <= |s|
    requires AllIn(s, p + 4, w, Space)
    requires s[w..w + |ip|] == ip && DottedQuadAt(ip, x, y, z)
    requires w + |ip| == |s| || !IsDigit(s[w + |ip|])
    ensures MatchAt(s, p) == Some(ip)
  {
    QuadShift(s, ip, w, x, y, z);
    DigitIsNotSpace(s[w]);
    SpanEndUnique(s, p + 4, Space, w);
    QuadEndComplete(s, w, w + x, w + y, w + z, w + |ip|);
  }

  /** A dotted quad copied into `s` at `w` is a dotted quad of `s` there. */
  lemma QuadShift(s: string, ip: string, w: nat, x: nat, y: nat, z: nat)
    requires w + |ip| <= |s| && s[w..w + |ip|] == ip && DottedQuadAt(ip, x, y, z)
    requires w + |ip| == |s| || !IsDigit(s[w + |ip|])
    ensures QuadAt(s, w, w + x, w + y, w + z, w + |ip|)
  {
    forall k | 0 <= k < |ip| ensures s[w + k] == ip[k] {
      assert s[w..w + |ip|][k] == ip[k];
    }
    AllInShift(s, ip, w, 0, x, Digit);
    AllInShift(s, ip, w, x + 1, y, Digit);
    AllInShift(s, ip, w, y + 1, z, Digit);
    AllInShift(s, ip, w, z + 1, |ip|, Digit);
  }

  lemma AllInShift(s: string, t: string, w: nat, i: nat, j: nat, p: Class)
    requires i <= j <= |t| && w + |t| <= |s|
    requires forall k :: 0 <= k < |t| ==> s[w + k] == t[k]
    requires AllIn(t, i, j, p)
    ensures AllIn(s, w + i, w + j, p)
  {
    forall k | w + i <= k < w + j ensures In(p, s[k]) {
      assert s[w + (k - w)] == t[k - w];
    }
  }
}
