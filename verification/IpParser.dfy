/** KzNet/IpParser.h: text to IPv4 and IPv6 addresses. Characters stand for bytes; an address is the
    sequence of its bytes in network order. The parsing loops are proved against recursive functions,
    and these against the notation of addresses: the canonical dotted quad, and section 2.2 of RFC 4291
    with the grammar of section 3.2.2 of RFC 3986. */
module IpParser {
  import opened Common
  import opened Decimal

  // ---------------------------------------------------------------- decimal octets and dotted quads

  predicate IsQuad(q: seq<nat>) { |q| == 4 && forall i | 0 <= i < 4 :: q[i] <= 255 }

  /** Octets separated by dots. */
  function Dotted(q: seq<nat>): string
    requires q != []
  {
    if |q| == 1 then Dec(q[0]) else Dec(q[0]) + "." + Dotted(q[1..])
  }

  /** `parseIPv4Raw` from a state on: the octets seen, the value and the digits of the one being read. */
  function QuadLoop(s: string, parts: seq<nat>, val: nat, digits: nat): Option<seq<nat>> {
    if s == [] then if |parts| == 3 && digits > 0 then Some(parts + [val]) else None
    else if IsDigit(s[0]) then
      if digits > 0 && val == 0 then None
      else if val * 10 + DigitValue(s[0]) > 255 then None
      else QuadLoop(s[1..], parts, val * 10 + DigitValue(s[0]), digits + 1)
    else if s[0] == '.' then
      if digits == 0 || |parts| >= 3 then None else QuadLoop(s[1..], parts + [val], 0, 0)
    else None
  }

  function ParseQuad(s: string): Option<seq<nat>> { QuadLoop(s, [], 0, 0) }

  /** What has been read of an octet: nothing, or its decimal notation. */
  predicate Read(u: string, val: nat, digits: nat) {
    val <= 255 && if digits == 0 then u == "" && val == 0 else u == Dec(val)
  }

  lemma DecSnoc(val: nat, d: nat)
    requires d < 10
    ensures val > 0 ==> Dec(val * 10 + d) == Dec(val) + [Digit(d)]
    ensures Dec(d) == [Digit(d)]
  {
    assert val > 0 ==> (val * 10 + d) / 10 == val && (val * 10 + d) % 10 == d;
  }

  lemma {:induction false} QuadSound(s: string, parts: seq<nat>, val: nat, digits: nat, u: string)
    requires Read(u, val, digits) && |parts| <= 3 && (forall i | 0 <= i < |parts| :: parts[i] <= 255)
    requires QuadLoop(s, parts, val, digits).Some?
    ensures var q := QuadLoop(s, parts, val, digits).value;
            IsQuad(q) && q[..|parts|] == parts && u + s == Dotted(q[|parts|..])
  {
    hide Dec, Dotted, Read;
    var q := QuadLoop(s, parts, val, digits).value;
    if s == [] {
      QuadEnd(parts, val, digits, u);
    } else if IsDigit(s[0]) {
      ReadDigit(s[0], val, digits, u);
      QuadSound(s[1..], parts, val * 10 + DigitValue(s[0]), digits + 1, u + [s[0]]);
      assert s == [s[0]] + s[1..];
      assert (u + [s[0]]) + s[1..] == u + s;
    } else {
      ReadNothing(u, val, digits);
      QuadSound(s[1..], parts + [val], 0, 0, "");
      assert "" + s[1..] == s[1..];
      DottedStep(q, parts, val, s[1..]);
      assert s == "." + s[1..];
      assert u + s == u + "." + s[1..];
    }
  }

  lemma ReadNothing(u: string, val: nat, digits: nat)
    requires Read(u, val, digits)
    ensures Read("", 0, 0) && val <= 255 && (digits > 0 ==> u == Dec(val))
  {
  }

  lemma QuadEnd(parts: seq<nat>, val: nat, digits: nat, u: string)
    requires Read(u, val, digits) && digits > 0 && |parts| == 3 && forall i | 0 <= i < 3 :: parts[i] <= 255
    ensures var q := parts + [val]; IsQuad(q) && q[..3] == parts && u + [] == Dotted(q[3..])
  {
    assert (parts + [val])[3..] == [val] && u + [] == u;
  }

  lemma ReadDigit(c: char, val: nat, digits: nat, u: string)
    requires IsDigit(c) && Read(u, val, digits) && (digits > 0 ==> val > 0) && val * 10 + DigitValue(c) <= 255
    ensures Read(u + [c], val * 10 + DigitValue(c), digits + 1)
  {
    DecSnoc(val, DigitValue(c));
    assert Digit(DigitValue(c)) == c;
    if digits == 0 {
      assert u + [c] == [c];
    }
  }

  lemma DottedStep(q: seq<nat>, parts: seq<nat>, val: nat, s: string)
    requires |parts| + 1 < |q| && q[..|parts| + 1] == parts + [val] && s == Dotted(q[|parts| + 1..])
    ensures q[..|parts|] == parts && Dotted(q[|parts|..]) == Dec(val) + "." + s
  {
    var rest := q[|parts| + 1..];
    assert q[|parts|] == (q[..|parts| + 1])[|parts|] == val;
    assert q[|parts|..] == [val] + rest && q[|parts|..][1..] == rest;
    assert q[..|parts|] == (q[..|parts| + 1])[..|parts|];
  }

  lemma FewDigits(n: nat)
    requires n <= 255
    ensures n < 10 ==> Dec(n) == [Digit(n)]
    ensures 10 <= n < 100 ==> Dec(n) == [Digit(n / 10), Digit(n % 10)]
    ensures 100 <= n ==> Dec(n) == [Digit(n / 100), Digit(n / 10 % 10), Digit(n % 10)]
  {
    assert n >= 100 ==> n / 10 / 10 == n / 100;
  }

  lemma OneDigit(c: char, s: string, parts: seq<nat>, val: nat, digits: nat)
    requires IsDigit(c) && (digits > 0 ==> val > 0) && val * 10 + DigitValue(c) <= 255
    ensures QuadLoop([c] + s, parts, val, digits) == QuadLoop(s, parts, val * 10 + DigitValue(c), digits + 1)
  {
    assert ([c] + s)[1..] == s;
  }

  /** Reading the decimal notation of an octet. */
  lemma ReadOctet(n: nat, s: string, parts: seq<nat>) returns (digits: nat)
    requires n <= 255
    ensures digits > 0 && QuadLoop(Dec(n) + s, parts, 0, 0) == QuadLoop(s, parts, n, digits)
  {
    hide QuadLoop;
    FewDigits(n);
    hide Dec, QuadLoop;
    if n < 10 {
      OneDigit(Digit(n), s, parts, 0, 0);
      digits := 1;
    } else if n < 100 {
      assert Dec(n) + s == [Digit(n / 10)] + ([Digit(n % 10)] + s);
      OneDigit(Digit(n / 10), [Digit(n % 10)] + s, parts, 0, 0);
      OneDigit(Digit(n % 10), s, parts, n / 10, 1);
      digits := 2;
    } else {
      assert Dec(n) + s == [Digit(n / 100)] + ([Digit(n / 10 % 10)] + ([Digit(n % 10)] + s));
      OneDigit(Digit(n / 100), [Digit(n / 10 % 10)] + ([Digit(n % 10)] + s), parts, 0, 0);
      OneDigit(Digit(n / 10 % 10), [Digit(n % 10)] + s, parts, n / 100, 1);
      assert n / 100 * 10 + n / 10 % 10 == n / 10;
      OneDigit(Digit(n % 10), s, parts, n / 10, 2);
      digits := 3;
    }
  }

  lemma {:induction false} QuadComplete(parts: seq<nat>, q: seq<nat>)
    requires |parts| + |q| == 4 && q != [] && forall i | 0 <= i < |q| :: q[i] <= 255
    ensures QuadLoop(Dotted(q), parts, 0, 0) == Some(parts + q)
    decreases |q|
  {
    if |q| == 1 {
      var digits := ReadOctet(q[0], "", parts);
      assert Dec(q[0]) + "" == Dec(q[0]);
      assert q == [q[0]];
    } else {
      var rest := Dotted(q[1..]);
      assert Dotted(q) == Dec(q[0]) + ("." + rest);
      var digits := ReadOctet(q[0], "." + rest, parts);
      assert ("." + rest)[1..] == rest;
      QuadComplete(parts + [q[0]], q[1..]);
      assert (parts + [q[0]]) + q[1..] == parts + q;
    }
  }

  /** `parseIPv4Raw` accepts exactly the canonical dotted quad: parsing and printing are inverse. */
  lemma QuadExact(s: string, q: seq<nat>)
    ensures ParseQuad(s) == Some(q) <==> IsQuad(q) && s == Dotted(q)
  {
    if ParseQuad(s) == Some(q) {
      QuadSound(s, [], 0, 0, "");
      assert "" + s == s && q[0..] == q;
    }
    if IsQuad(q) && s == Dotted(q) {
      QuadComplete([], q);
      assert [] + q == q;
    }
  }

  function BigEndian(q: seq<nat>): nat {
    if q == [] then 0 else BigEndian(q[..|q| - 1]) * 256 + q[|q| - 1]
  }

  /** The loop of `parseIPv4Raw`: `ip` collects the octets seen. */
  method ParseIPv4Raw(s: string) returns (ok: bool, outIp: nat)
    ensures ok <==> ParseQuad(s).Some?
    ensures ok ==> outIp == BigEndian(ParseQuad(s).value) < 0x1_0000_0000
  {
    var val: nat, ip: nat, dots: nat, hasDigit, digitsInPart: nat := 0, 0, 0, false, 0;
    ghost var parts: seq<nat> := [];
    var p := 0;
    outIp := 0;
    assert s[0..] == s;
    while p < |s|
      invariant p <= |s| && |parts| == dots <= 3 && ip == BigEndian(parts)
      invariant (hasDigit <==> digitsInPart > 0) && val <= 255
      invariant ip < if dots == 0 then 1 else if dots == 1 then 256 else if dots == 2 then 65536 else 16777216
      invariant QuadLoop(s[p..], parts, val, digitsInPart) == ParseQuad(s)
    {
      var c := s[p];
      assert s[p..][1..] == s[p + 1..];
      p := p + 1;
      if IsDigit(c) {
        if digitsInPart > 0 && val == 0 {
          return false, 0;
        }
        val := val * 10 + DigitValue(c);
        if val > 255 {
          return false, 0;
        }
        hasDigit := true;
        digitsInPart := digitsInPart + 1;
      } else if c == '.' {
        if !hasDigit || dots >= 3 {
          return false, 0;
        }
        assert (parts + [val])[..|parts|] == parts;
        ip := ip * 256 + val;
        parts := parts + [val];
        val := 0;
        hasDigit := false;
        digitsInPart := 0;
        dots := dots + 1;
      } else {
        return false, 0;
      }
    }
    assert s[p..] == [];
    if dots != 3 || !hasDigit {
      return false, 0;
    }
    assert (parts + [val])[..|parts|] == parts;
    return true, ip * 256 + val;
  }

  // ---------------------------------------------------------------- the notation of IPv6 addresses

  predicate IsHex(c: char) { '0' <= c <= '9' || 'A' <= c <= 'F' || 'a' <= c <= 'f' }

  function HexDigit(c: char): (v: nat)
    requires IsHex(c)
    ensures v < 16
  {
    if c <= '9' then (c - '0') as nat else if c <= 'F' then (c - 'A') as nat + 10 else (c - 'a') as nat + 10
  }

  predicate AllHex(s: string) { forall i | 0 <= i < |s| :: IsHex(s[i]) }

  function HexValue(s: string): nat
    requires AllHex(s)
  {
    if s == [] then 0 else HexValue(s[..|s| - 1]) * 16 + HexDigit(s[|s| - 1])
  }

  /** h16: one to four hexadecimal digits. */
  predicate IsH16(s: string) { 1 <= |s| <= 4 && AllHex(s) }

  /** The two bytes of a group. */
  function GroupBytes(s: string): seq<nat>
    requires IsH16(s)
  {
    [HexValue(s) / 256 % 256, HexValue(s) % 256]
  }

  predicate AllH16(gs: seq<string>) { forall i | 0 <= i < |gs| :: IsH16(gs[i]) }

  function Bytes(gs: seq<string>): (b: seq<nat>)
    requires AllH16(gs)
    ensures |b| == 2 * |gs|
  {
    if gs == [] then [] else GroupBytes(gs[0]) + Bytes(gs[1..])
  }

  function QuadBytes(quad: Option<seq<nat>>): seq<nat> { if quad.Some? then quad.value else [] }

  /** Groups, and perhaps a dotted quad at the end, separated by colons. */
  function Joined(gs: seq<string>, quad: Option<seq<nat>>): string
    requires quad.Some? ==> IsQuad(quad.value)
  {
    if gs == [] then if quad.Some? then Dotted(quad.value) else ""
    else if |gs| == 1 && quad == None then gs[0]
    else gs[0] + ":" + Joined(gs[1..], quad)
  }

  /** A way to write an address: groups, or groups on both sides of a `::`, with a dotted quad for the
      last four bytes if `quad` says so. */
  datatype Form = Form(left: seq<string>, gap: bool, right: seq<string>, quad: Option<seq<nat>>)

  predicate WellFormed(f: Form) {
    && AllH16(f.left) && AllH16(f.right) && (f.quad.Some? ==> IsQuad(f.quad.value))
    && (f.gap || f.right == [])
    && var n := 2 * |f.left| + 2 * |f.right| + |QuadBytes(f.quad)|;
       if f.gap then n <= 14 else n == 16
  }

  function Written(f: Form): string
    requires WellFormed(f)
  {
    if f.gap then Joined(f.left, None) + "::" + Joined(f.right, f.quad) else Joined(f.left, f.quad)
  }

  function Zeros(n: nat): seq<nat> { seq(n, _ => 0) }

  /** The `::` stands for as many zero bytes as are missing. */
  function Address(f: Form): (b: seq<nat>)
    requires WellFormed(f)
    ensures |b| == 16
  {
    var tail := Bytes(f.right) + QuadBytes(f.quad);
    Bytes(f.left) + Zeros(16 - 2 * |f.left| - |tail|) + tail
  }

  // ---------------------------------------------------------------- parseIPv6

  /** How many hexadecimal digits come first. */
  function HexRun(s: string): (n: nat)
    ensures n <= |s| && AllHex(s[..n]) && (n < |s| ==> !IsHex(s[n]))
  {
    if s != [] && IsHex(s[0]) then
      var n := HexRun(s[1..]);
      assert s[..n + 1] == [s[0]] + s[1..][..n];
      n + 1
    else 0
  }

  /** The bytes at the end of the loop: expand the `::`, or insist on 16 bytes and no more text. */
  function Expand(s: string, out: seq<nat>, colon: Option<nat>): Option<seq<nat>>
    requires |out| <= 16 && (colon.Some? ==> colon.value <= |out|)
  {
    if colon.Some? then
      if |out| == 16 then None else Some(out[..colon.value] + Zeros(16 - |out|) + out[colon.value..])
    else if |out| == 16 && s == [] then Some(out) else None
  }

  /** The main loop from a state on: the text left, the bytes written, where the `::` was. */
  function Loop(s: string, out: seq<nat>, colon: Option<nat>): Option<seq<nat>>
    requires |out| <= 16 && |out| % 2 == 0 && (colon.Some? ==> colon.value <= |out|)
    decreases |s|
  {
    if s == [] || |out| == 16 then Expand(s, out, colon)
    else if s[0] == ':' then
      if colon.Some? then None
      else if |s| == 1 then Expand([], out, Some(|out|))
      else if s[1] == ':' then None
      else Loop(s[1..], out, Some(|out|))
    else
      var n := HexRun(s);
      if n == 0 || n > 4 then None
      else if n < |s| && s[n] == '.' then
        if 16 - |out| < 4 || ParseQuad(s) == None then None
        else QuadLength(s); Expand([], out + ParseQuad(s).value, colon)
      else if n < |s| && s[n] == ':' then
        if n + 1 == |s| then None else Loop(s[n + 1..], out + GroupBytes(s[..n]), colon)
      else Loop(s[n..], out + GroupBytes(s[..n]), colon)
  }

  lemma QuadLength(s: string)
    requires ParseQuad(s).Some?
    ensures IsQuad(ParseQuad(s).value)
  {
    QuadExact(s, ParseQuad(s).value);
  }

  function ParseIPv6Spec(s: string): Option<seq<nat>> {
    if s != [] && s[0] == ':' then
      if |s| > 1 && s[1] == ':' then Loop(s[2..], [], Some(0)) else None
    else Loop(s, [], None)
  }

  // Every form is accepted, with its address.

  lemma {:induction false} HexRunOf(g: string, t: string)
    requires AllHex(g) && (t != "" ==> !IsHex(t[0]))
    ensures HexRun(g + t) == |g|
  {
    if g != "" {
      assert (g + t)[1..] == g[1..] + t;
      HexRunOf(g[1..], t);
    } else {
      assert g + t == t;
    }
  }

  /** One group and a colon, with more text behind. */
  lemma GroupStep(g: string, t: string, out: seq<nat>, colon: Option<nat>)
    requires IsH16(g) && t != "" && |out| < 16 && |out| % 2 == 0 && (colon.Some? ==> colon.value <= |out|)
    ensures Loop(g + ":" + t, out, colon) == Loop(t, out + GroupBytes(g), colon)
  {
    var s := g + (":" + t);
    assert g + ":" + t == s;
    HexRunOf(g, ":" + t);
    assert s[..|g|] == g && s[|g| + 1..] == t && s[|g|] == ':' && s[0] == g[0];
  }

  lemma LastGroup(g: string, out: seq<nat>, colon: Option<nat>)
    requires IsH16(g) && |out| < 16 && |out| % 2 == 0 && (colon.Some? ==> colon.value <= |out|)
    ensures Loop(g, out, colon) == Expand([], out + GroupBytes(g), colon)
  {
    HexRunOf(g, "");
    assert g + "" == g && g[..|g|] == g && g[|g|..] == [];
  }

  lemma QuadText(q: seq<nat>)
    requires IsQuad(q)
    ensures var s := Dotted(q); var n := HexRun(s); 0 < n <= 3 && n < |s| && s[n] == '.' && s[0] != ':'
  {
    FewDigits(q[0]);
    var d, t := Dec(q[0]), "." + Dotted(q[1..]);
    assert Dotted(q) == d + t;
    HexRunOf(d, t);
  }

  lemma QuadTail(quad: seq<nat>, out: seq<nat>, colon: Option<nat>)
    requires IsQuad(quad) && |out| <= 12 && |out| % 2 == 0 && (colon.Some? ==> colon.value <= |out|)
    ensures Loop(Dotted(quad), out, colon) == Expand([], out + quad, colon)
  {
    QuadText(quad);
    QuadExact(Dotted(quad), quad);
  }

  lemma BytesStep(gs: seq<string>, out: seq<nat>)
    requires AllH16(gs) && gs != []
    ensures AllH16(gs[1..]) && out + Bytes(gs) == (out + GroupBytes(gs[0])) + Bytes(gs[1..])
  {
  }

  lemma {:induction false} TailComplete(gs: seq<string>, quad: Option<seq<nat>>, out: seq<nat>, colon: Option<nat>)
    requires AllH16(gs) && (quad.Some? ==> IsQuad(quad.value)) && (gs != [] || quad.Some?)
    requires |out| + 2 * |gs| + |QuadBytes(quad)| <= 16 && |out| % 2 == 0 && (colon.Some? ==> colon.value <= |out|)
    ensures Loop(Joined(gs, quad), out, colon) == Expand([], out + Bytes(gs) + QuadBytes(quad), colon)
    decreases |gs|
  {
    hide Loop, Expand, HexRun, Dotted;
    if gs == [] {
      QuadTail(quad.value, out, colon);
      assert out + Bytes(gs) == out;
    } else {
      BytesStep(gs, out);
      if |gs| == 1 && quad == None {
        LastGroup(gs[0], out, colon);
        assert out + Bytes(gs) + QuadBytes(quad) == out + GroupBytes(gs[0]);
      } else {
        var rest := Joined(gs[1..], quad);
        JoinedStart(gs[1..], quad);
        GroupStep(gs[0], rest, out, colon);
        TailComplete(gs[1..], quad, out + GroupBytes(gs[0]), colon);
      }
    }
  }

  lemma JoinedStart(gs: seq<string>, quad: Option<seq<nat>>)
    requires AllH16(gs) && (quad.Some? ==> IsQuad(quad.value)) && (gs != [] || quad.Some?)
    ensures var s := Joined(gs, quad); s != "" && s[0] != ':'
  {
    if gs == [] {
      QuadText(quad.value);
    } else {
      assert Joined(gs, quad)[0] == gs[0][0] && IsHex(gs[0][0]);
    }
  }

  /** What follows the groups before a `::`. */
  function AfterGap(r: string, out: seq<nat>): Option<seq<nat>>
    requires |out| <= 14 && |out| % 2 == 0
  {
    if r == "" then Expand([], out, Some(|out|)) else Loop(r, out, Some(|out|))
  }

  lemma SecondColon(r: string, out: seq<nat>)
    requires |out| <= 14 && |out| % 2 == 0 && (r != "" ==> r[0] != ':')
    ensures Loop(":" + r, out, None) == AfterGap(r, out)
  {
    assert (":" + r)[1..] == r;
  }

  lemma OneGap(g: string, r: string)
    ensures g + "::" + r == g + ":" + (":" + r)
  {
  }

  lemma LaterGap(g: string, rest: string, r: string)
    ensures g + ":" + rest + "::" + r == g + ":" + (rest + "::" + r)
  {
  }

  lemma JoinedStep(gs: seq<string>, r: string)
    requires AllH16(gs) && gs != []
    ensures var rest := if |gs| == 1 then ":" + r else Joined(gs[1..], None) + "::" + r;
            Joined(gs, None) + "::" + r == gs[0] + ":" + rest
  {
    OneGap(gs[0], r);
    if |gs| > 1 {
      LaterGap(gs[0], Joined(gs[1..], None), r);
    }
  }

  lemma {:induction false} LeftComplete(gs: seq<string>, r: string, out: seq<nat>)
    requires AllH16(gs) && gs != [] && |out| + 2 * |gs| <= 14 && |out| % 2 == 0 && (r != "" ==> r[0] != ':')
    ensures Loop(Joined(gs, None) + "::" + r, out, None) == AfterGap(r, out + Bytes(gs))
    decreases |gs|
  {
    hide Loop, Expand, HexRun, AfterGap, Joined;
    JoinedStep(gs, r);
    BytesStep(gs, out);
    if |gs| == 1 {
      assert |":" + r| > 0;
      GroupStep(gs[0], ":" + r, out, None);
      SecondColon(r, out + GroupBytes(gs[0]));
      assert out + Bytes(gs) == out + GroupBytes(gs[0]);
    } else {
      assert |Joined(gs[1..], None) + "::" + r| > 0;
      GroupStep(gs[0], Joined(gs[1..], None) + "::" + r, out, None);
      LeftComplete(gs[1..], r, out + GroupBytes(gs[0]));
    }
  }

  lemma NothingJoined()
    ensures Joined([], None) == ""
  {
  }

  lemma ExpandAppended(b: seq<nat>, tail: seq<nat>)
    requires |b| + |tail| < 16
    ensures Expand([], b + tail, Some(|b|)) == Some(b + Zeros(16 - |b| - |tail|) + tail)
  {
    assert (b + tail)[..|b|] == b && (b + tail)[|b|..] == tail;
  }

  /** What follows a `::` fills up the address. */
  lemma GapComplete(f: Form)
    requires WellFormed(f) && f.gap
    ensures AfterGap(Joined(f.right, f.quad), Bytes(f.left)) == Some(Address(f))
  {
    hide Dotted, Joined, Loop, Expand, Zeros;
    var b, tail := Bytes(f.left), Bytes(f.right) + QuadBytes(f.quad);
    ExpandAppended(b, tail);
    if f.right == [] && f.quad == None {
      NothingJoined();
      assert tail == [] && b + tail == b;
    } else {
      JoinedStart(f.right, f.quad);
      TailComplete(f.right, f.quad, b, Some(|b|));
      assert b + Bytes(f.right) + QuadBytes(f.quad) == b + tail;
    }
  }

  lemma WholeAccepted(f: Form)
    requires WellFormed(f) && !f.gap
    ensures ParseIPv6Spec(Written(f)) == Some(Address(f))
  {
    hide Loop, Joined, Dotted;
    JoinedStart(f.left, f.quad);
    TailComplete(f.left, f.quad, [], None);
    assert [] + Bytes(f.left) == Bytes(f.left) && Bytes(f.right) == [];
    assert Bytes(f.left) + QuadBytes(f.quad) == Address(f);
  }

  lemma GapAccepted(f: Form)
    requires WellFormed(f) && f.gap
    ensures ParseIPv6Spec(Written(f)) == Some(Address(f))
  {
    hide Loop, Joined, Dotted, Address;
    var l, r := Joined(f.left, None), Joined(f.right, f.quad);
    NothingJoined();
    if f.right != [] || f.quad.Some? {
      JoinedStart(f.right, f.quad);
    }
    GapComplete(f);
    if f.left == [] {
      assert Written(f) == "::" + r && Written(f)[2..] == r;
      GapFirst(r);
    } else {
      JoinedStart(f.left, None);
      assert Written(f)[0] == l[0];
      LeftComplete(f.left, r, []);
      assert [] + Bytes(f.left) == Bytes(f.left);
    }
  }

  lemma GapFirst(r: string)
    ensures Loop(r, [], Some(0)) == AfterGap(r, [])
  {
  }

  lemma FormAccepted(f: Form)
    requires WellFormed(f)
    ensures ParseIPv6Spec(Written(f)) == Some(Address(f))
  {
    if f.gap {
      GapAccepted(f);
    } else {
      WholeAccepted(f);
    }
  }

  // Everything accepted is a form of its address.

  /** How the text from a state of the loop on reads: if the `::` has been seen, as groups to its right;
      else as all that is left, the `::` included if there is one. */
  ghost predicate Describes(s: string, out: seq<nat>, colon: Option<nat>, b: seq<nat>, f: Form)
    requires |out| <= 16 && (colon.Some? ==> colon.value <= |out|)
  {
    && AllH16(f.left) && AllH16(f.right) && (f.quad.Some? ==> IsQuad(f.quad.value))
    && var n := |out| + 2 * |f.left| + 2 * |f.right| + |QuadBytes(f.quad)|;
       var tail := Bytes(f.right) + QuadBytes(f.quad);
       if colon.Some? then
         && !f.gap && f.left == [] && n <= 14 && s == Joined(f.right, f.quad)
         && b == out[..colon.value] + Zeros(16 - n) + (out[colon.value..] + tail)
       else if f.gap then
         && n <= 14 && b == out + Bytes(f.left) + Zeros(16 - n) + tail
         && s == (if f.left == [] then ":" else Joined(f.left, None) + "::") + Joined(f.right, f.quad)
       else
         && f.right == [] && n == 16 && s == Joined(f.left, f.quad) && b == out + Bytes(f.left) + QuadBytes(f.quad)
  }

  /** One more group in front. */
  function Prepend(g: string, f: Form, seen: bool): Form {
    if seen then f.(right := [g] + f.right) else f.(left := [g] + f.left)
  }

  lemma PrependBytes(g: string, gs: seq<string>)
    requires IsH16(g) && AllH16(gs)
    ensures AllH16([g] + gs) && Bytes([g] + gs) == GroupBytes(g) + Bytes(gs)
  {
    assert ([g] + gs)[1..] == gs;
  }

  lemma PrependText(g: string, gs: seq<string>, quad: Option<seq<nat>>)
    requires quad.Some? ==> IsQuad(quad.value)
    requires gs != [] || quad.Some?
    ensures Joined([g] + gs, quad) == g + ":" + Joined(gs, quad)
  {
    assert ([g] + gs)[1..] == gs;
  }

  /** After the `::`: a group and a colon in front of a described text. */
  lemma DescribeRight(g: string, t: string, out: seq<nat>, c: nat, b: seq<nat>, f: Form)
    requires IsH16(g) && t != "" && |out| <= 14 && c <= |out| && Describes(t, out + GroupBytes(g), Some(c), b, f)
    ensures Describes(g + ":" + t, out, Some(c), b, Prepend(g, f, true))
  {
    PrependBytes(g, f.right);
    PrependText(g, f.right, f.quad);
    var out', tail := out + GroupBytes(g), Bytes(f.right) + QuadBytes(f.quad);
    assert out'[..c] == out[..c] && out'[c..] + tail == out[c..] + (Bytes([g] + f.right) + QuadBytes(f.quad));
  }

  lemma DescribeLeft(g: string, t: string, out: seq<nat>, b: seq<nat>, f: Form)
    requires IsH16(g) && t != "" && |out| <= 14 && Describes(t, out + GroupBytes(g), None, b, f)
    ensures Describes(g + ":" + t, out, None, b, Prepend(g, f, false))
  {
    hide Dotted, Zeros, GroupBytes;
    PrependBytes(g, f.left);
    assert (out + GroupBytes(g)) + Bytes(f.left) == out + Bytes([g] + f.left);
    if !f.gap {
      PrependText(g, f.left, f.quad);
    } else {
      var r := Joined(f.right, f.quad);
      if f.left == [] {
        assert g + ":" + (":" + r) == g + "::" + r && Joined([g], None) == g;
      } else {
        PrependText(g, f.left, None);
        var l := Joined(f.left, None);
        assert g + ":" + (l + "::" + r) == (g + ":" + l) + "::" + r;
      }
    }
  }

  /** The end of the text. */
  lemma DescribeEnd(out: seq<nat>, colon: Option<nat>)
    requires |out| <= 16 && |out| % 2 == 0 && (colon.Some? ==> colon.value <= |out|) && Expand([], out, colon).Some?
    ensures Describes([], out, colon, Expand([], out, colon).value, Form([], false, [], None))
  {
    if colon.Some? {
      assert out[colon.value..] + [] == out[colon.value..];
    } else {
      assert out + [] == out;
    }
  }

  /** The second colon of a `::`. */
  lemma DescribeGap(t: string, out: seq<nat>, b: seq<nat>, f: Form)
    requires |out| <= 14 && Describes(t, out, Some(|out|), b, f)
    ensures Describes(":" + t, out, None, b, f.(gap := true))
  {
    hide Dotted, Zeros, Joined;
    var tail := Bytes(f.right) + QuadBytes(f.quad);
    assert out[..|out|] == out && out[|out|..] + tail == tail && out + Bytes([]) == out;
  }

  lemma DescribeQuad(out: seq<nat>, colon: Option<nat>, quad: seq<nat>)
    requires |out| <= 12 && |out| % 2 == 0 && (colon.Some? ==> colon.value <= |out|) && IsQuad(quad) && Expand([], out + quad, colon).Some?
    ensures Describes(Dotted(quad), out, colon, Expand([], out + quad, colon).value, Form([], false, [], Some(quad)))
  {
    if colon.Some? {
      var c := colon.value;
      assert (out + quad)[..c] == out[..c] && (out + quad)[c..] == out[c..] + quad && Bytes([]) + quad == quad;
    } else {
      assert out + Bytes([]) + quad == out + quad;
    }
  }

  lemma DescribeLast(g: string, out: seq<nat>, colon: Option<nat>)
    requires IsH16(g) && |out| <= 14 && |out| % 2 == 0 && (colon.Some? ==> colon.value <= |out|)
    requires Expand([], out + GroupBytes(g), colon).Some?
    ensures Describes(g, out, colon, Expand([], out + GroupBytes(g), colon).value,
                      if colon.Some? then Form([], false, [g], None) else Form([g], false, [], None))
  {
    assert Bytes([g]) == GroupBytes(g);
    if colon.Some? {
      var c := colon.value;
      assert (out + GroupBytes(g))[..c] == out[..c] && (out + GroupBytes(g))[c..] == out[c..] + (Bytes([g]) + []);
    } else {
      assert out + Bytes([g]) + [] == out + GroupBytes(g);
    }
  }

  /** A group that neither a colon nor a dot follows ends the text. */
  lemma GroupEndsText(s: string, n: nat, out: seq<nat>, colon: Option<nat>)
    requires n == HexRun(s) && 0 < n <= 4 && |out| <= 14 && |out| % 2 == 0 && (colon.Some? ==> colon.value <= |out|)
    requires n < |s| ==> s[n] != ':' && s[n] != '.'
    ensures n < |s| ==> Loop(s[n..], out + GroupBytes(s[..n]), colon) == None
    ensures n == |s| ==> Loop(s[n..], out + GroupBytes(s[..n]), colon) == Expand([], out + GroupBytes(s[..n]), colon)
  {
    if n == |s| {
      assert s[n..] == [];
    }
  }

  lemma {:induction false} LoopSound(s: string, out: seq<nat>, colon: Option<nat>) returns (f: Form)
    requires |out| <= 16 && |out| % 2 == 0 && (colon.Some? ==> colon.value <= |out|) && Loop(s, out, colon).Some?
    ensures Describes(s, out, colon, Loop(s, out, colon).value, f)
    decreases |s|
  {
    hide Describes, IsQuad, QuadLoop, ParseQuad, HexValue;
    f := Form([], false, [], None);
    if s == [] {
      DescribeEnd(out, colon);
    } else if s[0] == ':' {
      assert s == ":" + s[1..];
      if |s| == 1 {
        assert s[1..] == [];
        DescribeEnd(out, Some(|out|));
        DescribeGap([], out, Loop(s, out, colon).value, f);
      } else {
        var r := LoopSound(s[1..], out, Some(|out|));
        DescribeGap(s[1..], out, Loop(s, out, colon).value, r);
        f := r.(gap := true);
        return;
      }
      f := f.(gap := true);
    } else {
      var n := HexRun(s);
      var g := s[..n];
      if n < |s| && s[n] == '.' {
        var q := ParseQuad(s).value;
        QuadExact(s, q);
        DescribeQuad(out, colon, q);
        f := Form([], false, [], Some(q));
      } else if n < |s| && s[n] == ':' {
        var r := LoopSound(s[n + 1..], out + GroupBytes(g), colon);
        assert s == g + ":" + s[n + 1..];
        if colon.Some? {
          DescribeRight(g, s[n + 1..], out, colon.value, Loop(s, out, colon).value, r);
        } else {
          DescribeLeft(g, s[n + 1..], out, Loop(s, out, colon).value, r);
        }
        f := Prepend(g, r, colon.Some?);
      } else {
        GroupEndsText(s, n, out, colon);
        assert g == s;
        DescribeLast(g, out, colon);
        f := if colon.Some? then Form([], false, [g], None) else Form([g], false, [], None);
      }
    }
  }

  lemma BehindGap(t: string, b: seq<nat>, r: Form)
    requires Describes(t, [], Some(0), b, r)
    ensures WellFormed(Form([], true, r.right, r.quad)) && t == Joined(r.right, r.quad)
    ensures var tail := Bytes(r.right) + QuadBytes(r.quad); |tail| <= 14 && b == Zeros(16 - |tail|) + tail
  {
    hide Joined, GroupBytes, QuadBytes, AllH16, IsQuad, Zeros;
    var out: seq<nat>, tail := [], Bytes(r.right) + QuadBytes(r.quad);
    assert out[..0] + Zeros(16 - |tail|) == Zeros(16 - |tail|);
    assert out[0..] + tail == tail;
  }

  lemma NothingInFront(f: Form)
    requires WellFormed(f) && f.gap && f.left == []
    ensures Written(f) == "::" + Joined(f.right, f.quad)
    ensures var tail := Bytes(f.right) + QuadBytes(f.quad); |tail| <= 14 && Address(f) == Zeros(16 - |tail|) + tail
  {
    hide GroupBytes, QuadBytes, AllH16, IsQuad, Dotted, Zeros;
    var tail := Bytes(f.right) + QuadBytes(f.quad);
    assert Joined(f.left, None) + "::" == "::";
    assert Bytes(f.left) + Zeros(16 - |tail|) == Zeros(16 - |tail|);
  }

  lemma StartsWithGap(t: string, b: seq<nat>, r: Form)
    requires Describes(t, [], Some(0), b, r)
    ensures var f := Form([], true, r.right, r.quad); WellFormed(f) && Written(f) == "::" + t && Address(f) == b
  {
    hide Describes, WellFormed, Written, Address, Joined, Bytes, QuadBytes, Zeros;
    BehindGap(t, b, r);
    NothingInFront(Form([], true, r.right, r.quad));
  }

  lemma StartsWithGroup(s: string, b: seq<nat>, f: Form)
    requires Describes(s, [], None, b, f) && (s == "" || s[0] != ':')
    ensures WellFormed(f) && Written(f) == s && Address(f) == b
  {
    assert [] + Bytes(f.left) == Bytes(f.left);
    if !f.gap {
      assert Bytes(f.left) + Zeros(0) + (Bytes([]) + QuadBytes(f.quad)) == Bytes(f.left) + QuadBytes(f.quad);
    }
  }

  lemma AcceptedIsForm(s: string) returns (f: Form)
    requires ParseIPv6Spec(s).Some?
    ensures WellFormed(f) && Written(f) == s && Address(f) == ParseIPv6Spec(s).value
  {
    hide Describes, Loop, WellFormed, Written, Address;
    if s != [] && s[0] == ':' {
      var r := LoopSound(s[2..], [], Some(0));
      f := Form([], true, r.right, r.quad);
      assert s == "::" + s[2..];
      StartsWithGap(s[2..], ParseIPv6Spec(s).value, r);
    } else {
      f := LoopSound(s, [], None);
      StartsWithGroup(s, ParseIPv6Spec(s).value, f);
    }
  }

  /** `parseIPv6` accepts a string with an address exactly if the string is one of the ways to write it:
      `::` in any place or in none, and with or without a dotted quad at the end. */
  lemma AcceptsExactlyTheForms(s: string, b: seq<nat>)
    ensures ParseIPv6Spec(s) == Some(b) <==> exists f :: WellFormed(f) && Written(f) == s && Address(f) == b
  {
    if ParseIPv6Spec(s) == Some(b) {
      var f := AcceptedIsForm(s);
    }
    forall f | WellFormed(f) && Written(f) == s && Address(f) == b
      ensures ParseIPv6Spec(s) == Some(b)
    {
      FormAccepted(f);
    }
  }

  // ---------------------------------------------------------------- the parsing loop

  /** `parseIPv4Embedded`: the four bytes of a dotted quad, written at `tp`. */
  method ParseIPv4Embedded(s: string, buf: array<nat>, tp: nat) returns (ok: bool)
    requires tp + 4 <= buf.Length
    modifies buf
    ensures ok <==> ParseQuad(s).Some?
    ensures ok ==> buf[..] == old(buf[..tp]) + ParseQuad(s).value + old(buf[tp + 4..])
    ensures !ok ==> buf[..] == old(buf[..])
  {
    var ip;
    ok, ip := ParseIPv4Raw(s);
    if ok {
      QuadLength(s);
      OctetsOf(ParseQuad(s).value);
      buf[tp] := ip / 16777216;
      buf[tp + 1] := ip / 65536 % 256;
      buf[tp + 2] := ip / 256 % 256;
      buf[tp + 3] := ip % 256;
    }
  }

  lemma OctetAt(high: nat, low: nat)
    requires low < 256
    ensures (high * 256 + low) / 256 == high && (high * 256 + low) % 256 == low
  {
  }

  lemma Shifts(ip: nat)
    ensures ip / 65536 == ip / 256 / 256 && ip / 16777216 == ip / 256 / 256 / 256
  {
  }

  lemma OctetsOf(q: seq<nat>)
    requires IsQuad(q)
    ensures var ip := BigEndian(q); q == [ip / 16777216, ip / 65536 % 256, ip / 256 % 256, ip % 256]
  {
    BigEndianOfQuad(q);
    var two: nat := q[0] * 256 + q[1];
    OctetAt(two * 256 + q[2], q[3]);
    OctetAt(two, q[2]);
    OctetAt(q[0], q[1]);
    Shifts(BigEndian(q));
  }

  lemma BigEndianOfQuad(q: seq<nat>)
    requires IsQuad(q)
    ensures BigEndian(q) == ((q[0] * 256 + q[1]) * 256 + q[2]) * 256 + q[3]
  {
    assert q[..3][..2] == q[..2] && q[..2][..1] == q[..1] && q[..1][..0] == [];
    assert BigEndian(q[..1]) == q[0] && BigEndian(q[..2]) == q[0] * 256 + q[1];
    assert BigEndian(q[..3]) == (q[0] * 256 + q[1]) * 256 + q[2];
  }

  /** At least as many digits come first as have been counted. */
  lemma {:induction false} RunAtLeast(s: string, n: nat)
    requires n <= |s| && AllHex(s[..n])
    ensures HexRun(s) >= n
  {
    if n > 0 {
      assert s[0] == s[..n][0];
      assert s[1..][..n - 1] == s[..n][1..];
      RunAtLeast(s[1..], n - 1);
    }
  }

  /** The digits of a group, from `start` on; more than four are refused, and none too. */
  method ReadGroup(s: string, start: nat) returns (ok: bool, p: nat, val: nat)
    requires start < |s|
    ensures ok <==> 1 <= HexRun(s[start..]) <= 4
    ensures ok ==> p == start + HexRun(s[start..]) && AllHex(s[start..p]) && val == HexValue(s[start..p])
  {
    p, val := start, 0;
    var charCount: nat := 0;
    ghost var rest := s[start..];
    while p < |s| && IsHex(s[p])
      invariant p == start + charCount <= |s| && charCount <= 4
      invariant AllHex(s[start..p]) && val == HexValue(s[start..p])
    {
      assert s[start..p + 1] == s[start..p] + [s[p]] == rest[..charCount + 1];
      charCount := charCount + 1;
      if charCount > 4 {
        RunAtLeast(rest, charCount);
        return false, p, val;
      }
      assert s[start..p + 1][..charCount - 1] == s[start..p];
      val := val * 16 + HexDigit(s[p]);
      p := p + 1;
    }
    assert rest == rest[..charCount] + rest[charCount..] && rest[..charCount] == s[start..p];
    HexRunOf(rest[..charCount], rest[charCount..]);
    ok := charCount > 0;
  }

  /** What the loop does with a text that starts with a group. */
  lemma GroupTurn(s: string, out: seq<nat>, colon: Option<nat>)
    requires s != "" && s[0] != ':' && |out| < 16 && |out| % 2 == 0 && (colon.Some? ==> colon.value <= |out|)
    ensures var n := HexRun(s);
            Loop(s, out, colon) ==
              if n == 0 || n > 4 then None
              else if n < |s| && s[n] == '.' then
                if 16 - |out| < 4 || ParseQuad(s) == None then None
                else QuadLength(s); Loop([], out + ParseQuad(s).value, colon)
              else if n < |s| && s[n] == ':' then
                if n + 1 == |s| then None else Loop(s[n + 1..], out + GroupBytes(s[..n]), colon)
              else Loop(s[n..], out + GroupBytes(s[..n]), colon)
  {
    if ParseQuad(s).Some? {
      QuadLength(s);
    }
  }

  /** The loop's body from a group on: two bytes and the colon behind them, or a dotted quad to the end. */
  method NextGroup(s: string, start: nat, buf: array<nat>, tp: nat, ghost colon: Option<nat>) returns (ok: bool, p: nat, tp': nat)
    requires start < |s| && s[start] != ':' && tp < 16 == buf.Length && tp % 2 == 0 && (colon.Some? ==> colon.value <= tp)
    modifies buf
    ensures ok ==> start < p <= |s| && tp <= tp' <= 16 && tp' % 2 == 0 && buf[..tp] == old(buf[..tp])
    ensures ok ==> Loop(s[p..], buf[..tp'], colon) == Loop(s[start..], old(buf[..tp]), colon)
    ensures !ok ==> Loop(s[start..], old(buf[..tp]), colon) == None
  {
    hide HexRun, Expand, ParseQuad, Loop, HexValue;
    ghost var rest, out := s[start..], buf[..tp];
    var val;
    tp' := tp;
    ok, p, val := ReadGroup(s, start);
    GroupTurn(rest, out, colon);
    if !ok {
      return false, p, tp';
    }
    assert rest[..p - start] == s[start..p] && s[p..] == rest[p - start..];
    if p < |s| && s[p] == '.' {
      if 16 - tp < 4 {
        return false, p, tp';
      }
      ok := ParseIPv4Embedded(s[start..], buf, tp);
      if ok {
        QuadLength(rest);
        tp' := tp + 4;
        p := |s|;
        assert buf[..tp'] == out + ParseQuad(rest).value && s[p..] == [];
      }
      return ok, p, tp';
    }
    buf[tp] := val / 256 % 256;
    buf[tp + 1] := val % 256;
    tp' := tp + 2;
    assert buf[..tp'] == out + GroupBytes(rest[..p - start]);
    if p < |s| && s[p] == ':' {
      p := p + 1;
      assert s[p..] == rest[p - start..];
      if p == |s| {
        return false, p, tp';
      }
    }
  }

  /** The end of `parseIPv6`: what stands behind the `::` moves to the end of the buffer. */
  method Finish(buf: array<nat>, tp: nat, colonp: Option<nat>, ghost rest: string, atEnd: bool) returns (ok: bool)
    requires tp <= 16 == buf.Length && (colonp.Some? ==> colonp.value <= tp) && (atEnd <==> rest == [])
    modifies buf
    ensures ok <==> Expand(rest, old(buf[..tp]), colonp).Some?
    ensures ok ==> buf[..] == Expand(rest, old(buf[..tp]), colonp).value
  {
    if colonp.Some? {
      var n := tp - colonp.value;
      if tp == 16 {
        return false;
      }
      ghost var out := buf[..tp];
      forall i | 0 <= i < n {
        buf[16 - n + i] := buf[colonp.value + i];
      }
      forall i | colonp.value <= i < 16 - n {
        buf[i] := 0;
      }
      assert buf[..] == out[..colonp.value] + Zeros(16 - tp) + out[colonp.value..];
      return true;
    }
    assert tp == 16 ==> buf[..tp] == buf[..];
    return tp == 16 && atEnd;
  }

  /** `parseIPv6`: fills the buffer from the front, and expands the `::` at the end. */
  method ParseIPv6(s: string, buf: array<nat>) returns (ok: bool)
    requires buf.Length == 16
    modifies buf
    ensures ok <==> ParseIPv6Spec(s).Some?
    ensures ok ==> buf[..] == ParseIPv6Spec(s).value
  {
    hide HexRun, Expand;
    var p, tp: nat, colonp: Option<nat> := 0, 0, None;
    if p < |s| && s[p] == ':' {
      if p + 1 < |s| && s[p + 1] == ':' {
        p := p + 2;
        colonp := Some(tp);
      } else {
        return false;
      }
    }
    assert buf[..0] == [] && s[0..] == s;
    while p < |s| && tp < 16
      invariant p <= |s| && tp <= 16 && tp % 2 == 0 && (colonp.Some? ==> colonp.value <= tp)
      invariant Loop(s[p..], buf[..tp], colonp) == ParseIPv6Spec(s)
      decreases |s| - p
    {
      ghost var rest := s[p..];
      if s[p] == ':' {
        if colonp.Some? {
          return false;
        }
        colonp := Some(tp);
        p := p + 1;
        assert s[p..] == rest[1..];
        if p == |s| {
          break;
        }
        if s[p] == ':' {
          return false;
        }
      } else {
        var more;
        more, p, tp := NextGroup(s, p, buf, tp, colonp);
        if !more {
          return false;
        }
      }
    }
    ok := Finish(buf, tp, colonp, s[p..], p == |s|);
  }
}
