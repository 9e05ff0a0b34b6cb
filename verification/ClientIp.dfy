/** Finding the client address in an X-Forwarded-For header: the scan from the right against a list of entries. */
module ClientIp {
  import opened Basics

  /** The last index below n that holds c. */
  function RFindBelow(s: string, c: char, n: nat): (p: Option<nat>)
    requires n <= |s|
    ensures p.None? ==> forall i | 0 <= i < n :: s[i] != c
    ensures p.Some? ==> p.value < n && s[p.value] == c && forall i | p.value < i < n :: s[i] != c
  {
    if n == 0 then None else if s[n - 1] == c then Some(n - 1) else RFindBelow(s, c, n - 1)
  }

  function RFind(s: string, c: char): (p: Option<nat>)
    ensures p.None? <==> c !in s
    ensures p.Some? ==> p.value < |s| && s[p.value] == c && c !in s[p.value + 1..]
  {
    RFindBelow(s, c, |s|)
  }

  /** The entries between the commas. */
  function Split(s: string): (parts: seq<string>)
    ensures |parts| >= 1
    decreases |s|
  {
    var p := RFind(s, ',');
    if p.None? then [s] else Split(s[..p.value]) + [s[p.value + 1..]]
  }

  function Join(parts: seq<string>): string
    requires |parts| >= 1
  {
    if |parts| == 1 then parts[0] else Join(parts[..|parts| - 1]) + "," + parts[|parts| - 1]
  }

  predicate CommaFree(parts: seq<string>) {
    forall i | 0 <= i < |parts| :: ',' !in parts[i]
  }

  /** It is the only place where c stands and does not stand behind. */
  lemma {:induction false} RFindIs(s: string, c: char, p: nat)
    requires p < |s| && s[p] == c && c !in s[p + 1..]
    ensures RFind(s, c) == Some(p)
  {
    assert forall i | p < i < |s| :: s[i] == s[p + 1..][i - p - 1];
  }

  lemma CommaSlices(s: string, x: string)
    ensures var all := s + "," + x;
      |all| == |s| + 1 + |x| && all[|s|] == ',' && all[..|s|] == s && all[|s| + 1..] == x
  {
  }

  /** The last comma of a header that ends with a comma-free entry. */
  lemma LastComma(s: string, x: string)
    requires ',' !in x
    ensures RFind(s + "," + x, ',') == Some(|s|)
    ensures (s + "," + x)[..|s|] == s && (s + "," + x)[|s| + 1..] == x
  {
    CommaSlices(s, x);
    RFindIs(s + "," + x, ',', |s|);
  }

  lemma SplitSnoc(s: string, x: string)
    requires ',' !in x
    ensures Split(s + "," + x) == Split(s) + [x]
  {
    LastComma(s, x);
  }

  /** Splitting inverts joining: the entries hold no comma and join to the header, and they are the only ones. */
  lemma {:induction false} SplitJoins(s: string)
    ensures Join(Split(s)) == s && CommaFree(Split(s))
    decreases |s|
  {
    var p := RFind(s, ',');
    if p.Some? {
      SplitJoins(s[..p.value]);
      assert s == s[..p.value] + "," + s[p.value + 1..];
      assert Split(s)[..|Split(s)| - 1] == Split(s[..p.value]);
    }
  }

  lemma {:induction false} SplitIsUnique(parts: seq<string>)
    requires |parts| >= 1 && CommaFree(parts)
    ensures Split(Join(parts)) == parts
  {
    if |parts| > 1 {
      var before, last := parts[..|parts| - 1], parts[|parts| - 1];
      SplitIsUnique(before);
      SplitSnoc(Join(before), last);
      assert before + [last] == parts;
    }
  }

  lemma Regroup(y: string, front: string, last: string)
    ensures y + "," + (front + "," + last) == (y + "," + front) + "," + last
  {
  }

  lemma SplitConcatStep(y: string, front: string, last: string)
    requires ',' !in last && Split(y + "," + front) == Split(y) + Split(front)
    ensures Split(y + "," + (front + "," + last)) == Split(y) + Split(front + "," + last)
  {
    Regroup(y, front, last);
    SplitSnoc(front, last);
    SplitSnoc(y + "," + front, last);
  }

  lemma {:induction false} SplitConcat(y: string, h: string)
    ensures Split(y + "," + h) == Split(y) + Split(h)
    decreases |h|
  {
    var p := RFind(h, ',');
    if p.None? {
      SplitSnoc(y, h);
    } else {
      SplitConcat(y, h[..p.value]);
      SplitConcatStep(y, h[..p.value], h[p.value + 1..]);
      CutAtComma(h, p.value);
    }
  }

  lemma CutAtComma(s: string, p: nat)
    requires p < |s| && s[p] == ','
    ensures s == s[..p] + "," + s[p + 1..]
  {
  }

  // ---------------------------------------------------------------- trimming

  /** Optional whitespace, OWS in section 5.6.3 of RFC 9110. */
  predicate IsOws(c: char) { c == ' ' || c == '\t' }

  predicate AllOws(s: string) {
    forall i | 0 <= i < |s| :: IsOws(s[i])
  }

  /** Neither end is whitespace. */
  predicate Bare(s: string) {
    s != [] ==> !IsOws(s[0]) && !IsOws(s[|s| - 1])
  }

  function TrimFront(s: string): string {
    if s != [] && IsOws(s[0]) then TrimFront(s[1..]) else s
  }

  function TrimBack(s: string): string {
    if s != [] && IsOws(s[|s| - 1]) then TrimBack(s[..|s| - 1]) else s
  }

  function Trim(s: string): string {
    TrimBack(TrimFront(s))
  }

  lemma {:induction false} TrimFrontCuts(s: string) returns (left: string)
    ensures AllOws(left) && s == left + TrimFront(s)
    ensures TrimFront(s) != [] ==> !IsOws(TrimFront(s)[0])
  {
    if s != [] && IsOws(s[0]) {
      var rest := TrimFrontCuts(s[1..]);
      left := [s[0]] + rest;
      OneMoreInFront(s, rest, TrimFront(s[1..]));
    } else {
      left := [];
    }
  }

  lemma OneMoreInFront(s: string, rest: string, core: string)
    requires s != [] && IsOws(s[0]) && AllOws(rest) && s[1..] == rest + core
    ensures AllOws([s[0]] + rest) && s == [s[0]] + rest + core
  {
    assert s == [s[0]] + s[1..];
  }

  lemma {:induction false} TrimBackCuts(s: string) returns (right: string)
    ensures AllOws(right) && s == TrimBack(s) + right
    ensures TrimBack(s) != [] ==> !IsOws(TrimBack(s)[|TrimBack(s)| - 1]) && TrimBack(s)[0] == s[0]
  {
    if s != [] && IsOws(s[|s| - 1]) {
      var rest := TrimBackCuts(s[..|s| - 1]);
      right := rest + [s[|s| - 1]];
      OneMoreBehind(s, rest, TrimBack(s[..|s| - 1]));
    } else {
      right := [];
    }
  }

  lemma OneMoreBehind(s: string, rest: string, core: string)
    requires s != [] && IsOws(s[|s| - 1]) && AllOws(rest) && s[..|s| - 1] == core + rest
    ensures AllOws(rest + [s[|s| - 1]]) && s == core + (rest + [s[|s| - 1]])
    ensures core != [] ==> core[0] == s[0]
  {
    assert s == s[..|s| - 1] + [s[|s| - 1]];
    if core != [] {
      assert s[..|s| - 1][0] == core[0];
    }
  }

  lemma {:induction false} TrimBackOfPadded(core: string, right: string)
    requires AllOws(right) && Bare(core)
    ensures TrimBack(core + right) == core
    decreases |right|
  {
    if right == [] {
      assert core + right == core;
    } else {
      var all := core + right;
      assert all[..|all| - 1] == core + right[..|right| - 1];
      TrimBackOfPadded(core, right[..|right| - 1]);
    }
  }

  lemma {:induction false} TrimFrontOfPadded(left: string, rest: string)
    requires AllOws(left)
    ensures TrimFront(left + rest) == TrimFront(rest)
    decreases |left|
  {
    if left == [] {
      assert left + rest == rest;
    } else {
      assert (left + rest)[1..] == left[1..] + rest;
      TrimFrontOfPadded(left[1..], rest);
    }
  }

  lemma {:induction false} TrimFrontOfBlank(blank: string)
    requires AllOws(blank)
    ensures TrimFront(blank) == []
  {
    TrimFrontOfPadded(blank, []);
    assert blank + [] == blank;
  }

  /** Trimming takes all the whitespace at both ends, and nothing else. */
  lemma TrimIsExact(s: string) returns (left: string, right: string)
    ensures s == left + Trim(s) + right && AllOws(left) && AllOws(right) && Bare(Trim(s))
  {
    left := TrimFrontCuts(s);
    right := TrimBackCuts(TrimFront(s));
  }

  lemma TrimIsUnique(left: string, core: string, right: string)
    requires AllOws(left) && AllOws(right) && Bare(core)
    ensures Trim(left + core + right) == core
  {
    assert left + core + right == left + (core + right);
    TrimFrontOfPadded(left, core + right);
    if core == [] {
      assert core + right == right;
      TrimFrontOfBlank(right);
    } else {
      assert TrimFront(core + right) == core + right;
      TrimBackOfPadded(core, right);
    }
  }

  // ---------------------------------------------------------------- the address

  function Max(a: int, b: int): int { if a >= b then a else b }

  /** The trimmed entry k places from the right, if there is one and it is not blank. */
  function EntryFromRight(parts: seq<string>, k: int, remote: string): string
    requires k >= 1
  {
    if k > |parts| then remote
    else
      var entry := Trim(parts[|parts| - k]);
      if entry == "" then remote else entry
  }

  /** The trimmed entry `hops` places from the right (at least one), or the socket address when the proxy is not
      trusted, the header is empty, there are too few entries, or the entry is blank. */
  function ClientAddress(forwardedFor: string, remote: string, trustProxy: bool, hops: int): string {
    if !trustProxy || forwardedFor == "" then remote
    else EntryFromRight(Split(forwardedFor), Max(hops, 1), remote)
  }

  method ExtractClientIp(forwardedFor: string, remote: string, trustProxy: bool, hops: int) returns (address: string)
    ensures address == ClientAddress(forwardedFor, remote, trustProxy, hops)
    ensures !trustProxy || forwardedFor == "" ==> address == remote
  {
    if !trustProxy || forwardedFor == "" {
      return remote;
    }
    ghost var parts := Split(forwardedFor);
    var remaining := forwardedFor;
    var hop := 0;
    while hop < hops - 1
      invariant 0 <= hop && (hop == 0 || hop <= hops - 1) && hop < |parts|
      invariant Split(remaining) == parts[..|parts| - hop]
    {
      var p := RFind(remaining, ',');
      if p.None? {
        return remote;
      }
      assert Split(remaining)[..|Split(remaining)| - 1] == Split(remaining[..p.value]);
      remaining := remaining[..p.value];
      hop := hop + 1;
    }
    var p := RFind(remaining, ',');
    var ip := if p.Some? then remaining[p.value + 1..] else remaining;
    assert ip == Split(remaining)[|Split(remaining)| - 1] == parts[|parts| - Max(hops, 1)];
    ghost var entry := ip;
    while ip != "" && IsOws(ip[0])
      invariant TrimFront(ip) == TrimFront(entry)
      decreases |ip|
    {
      ip := ip[1..];
    }
    while ip != "" && IsOws(ip[|ip| - 1])
      invariant TrimBack(ip) == Trim(entry)
      decreases |ip|
    {
      ip := ip[..|ip| - 1];
    }
    address := if ip == "" then remote else ip;
  }

  /** The empty header needs no case of its own: its one entry is blank. */
  lemma EmptyHeader(remote: string, k: int)
    requires k >= 1
    ensures Split("") == [""] && EntryFromRight(Split(""), k, remote) == remote
  {
    assert Split("") == [""];
    assert Trim("") == "";
  }

  /** Whatever a client writes in front of a header that already has enough entries changes nothing. */
  lemma PrefixIsIgnored(y: string, header: string, remote: string, trustProxy: bool, hops: int)
    requires |Split(header)| >= hops
    ensures ClientAddress(y + "," + header, remote, trustProxy, hops) == ClientAddress(header, remote, trustProxy, hops)
  {
    SplitConcat(y, header);
    EmptyHeader(remote, Max(hops, 1));
    LastPartsAgree(Split(y), Split(header), Max(hops, 1), remote);
  }

  lemma LastPartsAgree(more: seq<string>, parts: seq<string>, k: int, remote: string)
    requires 1 <= k <= |parts|
    ensures EntryFromRight(more + parts, k, remote) == EntryFromRight(parts, k, remote)
  {
    assert (more + parts)[|more + parts| - k] == parts[|parts| - k];
  }

  /** One more trusted proxy that appends its peer, with one more trusted hop, finds the same address. */
  lemma OneMoreProxy(header: string, x: string, remote: string, trustProxy: bool, hops: int)
    requires ',' !in x && hops >= 1
    ensures ClientAddress(header + "," + x, remote, trustProxy, hops + 1)
         == ClientAddress(header, remote, trustProxy, hops)
  {
    SplitSnoc(header, x);
    EmptyHeader(remote, hops);
    ShiftedPartsAgree(Split(header), x, hops, remote);
  }

  lemma ShiftedPartsAgree(parts: seq<string>, x: string, k: int, remote: string)
    requires k >= 1
    ensures EntryFromRight(parts + [x], k + 1, remote) == EntryFromRight(parts, k, remote)
  {
    if k <= |parts| {
      assert (parts + [x])[|parts| - k] == parts[|parts| - k];
    }
  }

  lemma JoinIs(parts: seq<string>, x: string)
    ensures Join([x]) == x
    ensures parts != [] ==> Join(parts + [x]) == Join(parts) + "," + x
  {
    if parts != [] {
      assert (parts + [x])[..|parts|] == parts;
    }
  }

  /** Who is not behind a trusted proxy, or sends no header, is known by the socket. */
  lemma UntrustedIsSocket(header: string, remote: string, trustProxy: bool, hops: int)
    requires !trustProxy || header == ""
    ensures ClientAddress(header, remote, trustProxy, hops) == remote
  {
  }

  /** Behind a trusted proxy, entries joined by commas give what stands between the blanks of the entry `hops` places
      from the right, counting at least one; or the socket address, if there are too few entries or that one is
      blank. */
  lemma {:induction false} EntryIsFound(parts: seq<string>, left: string, core: string, right: string,
                                        remote: string, hops: int)
    requires |parts| >= 1 && forall i | 0 <= i < |parts| :: ',' !in parts[i]
    requires (forall c | c in left :: c == ' ' || c == '\t') && (forall c | c in right :: c == ' ' || c == '\t')
    requires core != "" ==> core[0] !in {' ', '\t'} && core[|core| - 1] !in {' ', '\t'}
    ensures var k := if hops >= 1 then hops else 1;
      && (k > |parts| ==> ClientAddress(Join(parts), remote, true, hops) == remote)
      && (k <= |parts| && parts[|parts| - k] == left + core + right ==>
            ClientAddress(Join(parts), remote, true, hops) == if core == "" then remote else core)
  {
    SplitIsUnique(parts);
    EmptyHeader(remote, Max(hops, 1));
    assert forall i | 0 <= i < |left| :: left[i] in left;
    assert forall i | 0 <= i < |right| :: right[i] in right;
    TrimIsUnique(left, core, right);
  }
}
