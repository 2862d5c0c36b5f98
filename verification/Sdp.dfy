/** Printing a stream's candidates as SDP and parsing them back. How an IP address is
    printed and read is a parameter. */
module Sdp {
  import opened Arith
  import opened Options
  import opened SdpText
  import Candidates

  datatype Ip = Ip(family: nat, host: nat)

  datatype Address = Address(ip: Ip, port: nat)

  type Kind = Candidates.Kind

  /** A UDP candidate; `base` is unset until it is known. */
  datatype Candidate = Candidate(
    kind: Kind, component: nat, foundation: string, priority: nat, addr: Address, base: Option<Address>)

  /** Foreign functions: printing and reading IP addresses. */
  datatype Codec = Codec(show: Ip -> string, read: string -> Option<Ip>)

  const MAX_FOUNDATION: nat := 33

  function CandidatePrefix(): string { "a=candidate:" }

  function UfragPrefix(): string { "a=ice-ufrag:" }

  function PwdPrefix(): string { "a=ice-pwd:" }

  function KindName(kind: Kind): string {
    match kind
    case Host => "host"
    case ServerReflexive => "srflx"
    case PeerReflexive => "prflx"
    case Relayed => "relay"
  }

  function KindOf(name: string): Option<Kind> {
    if name == "host" then Some(Candidates.Host)
    else if name == "srflx" then Some(Candidates.ServerReflexive)
    else if name == "prflx" then Some(Candidates.PeerReflexive)
    else if name == "relay" then Some(Candidates.Relayed)
    else None
  }

  // ---------------------------------------------------------------------
  // Printing

  /** The related address is printed when it is set and differs. */
  predicate Relates(c: Candidate) {
    c.base.Some? && c.base.value != c.addr
  }

  /** Fields of their C types. */
  predicate Typed(c: Candidate) {
    && c.component < TWO32 && c.priority < TWO32 && c.addr.port < TWO16
    && (c.base.Some? ==> c.base.value.port < TWO16)
  }

  function Related(codec: Codec, c: Candidate): seq<string>
    requires Relates(c)
  {
    ["raddr", codec.show(c.base.value.ip), "rport", ShowNat(c.base.value.port)]
  }

  function Tokens(codec: Codec, c: Candidate): seq<string>
    requires Typed(c)
  {
    [c.foundation[..Min(|c.foundation|, MAX_FOUNDATION)], ShowSigned(c.component), "UDP",
     ShowSigned(c.priority), codec.show(c.addr.ip), ShowNat(c.addr.port), "typ", KindName(c.kind)]
    + (if Relates(c) then Related(codec, c) else [])
  }

  /** Section 15.1 of RFC 5245. */
  function CandidateLine(codec: Codec, c: Candidate): string
    requires Typed(c)
  {
    CandidatePrefix() + Join(Tokens(codec, c), ' ')
  }

  lemma JoinStep(first: string, rest: seq<string>)
    requires rest != []
    ensures Join([first] + rest, ' ') == first + " " + Join(rest, ' ')
  {
    assert ([first] + rest)[1..] == rest;
  }

  lemma Join4(a: string, b: string, c: string, d: string)
    ensures Join([a, b, c, d], ' ') == a + " " + b + " " + c + " " + d
  {
    JoinStep(c, [d]);
    JoinStep(b, [c, d]);
    JoinStep(a, [b, c, d]);
    assert [c] + [d] == [c, d] && [b] + [c, d] == [b, c, d] && [a] + [b, c, d] == [a, b, c, d];
    assert a + " " + (b + " " + (c + " " + d)) == a + " " + b + " " + c + " " + d;
  }

  lemma {:induction false} JoinConcat(x: seq<string>, y: seq<string>)
    requires x != [] && y != []
    ensures Join(x + y, ' ') == Join(x, ' ') + " " + Join(y, ' ')
  {
    if |x| == 1 {
      assert x + y == [x[0]] + y;
      JoinStep(x[0], y);
    } else {
      assert (x + y)[1..] == x[1..] + y;
      JoinConcat(x[1..], y);
      assert x[0] + " " + (Join(x[1..], ' ') + " " + Join(y, ' ')) == Join(x, ' ') + " " + Join(y, ' ');
    }
  }

  /** Append a candidate to the text piece by piece. */
  method GenerateCandidate(codec: Codec, c: Candidate, sdp: string) returns (out: string)
    requires Typed(c)
    ensures out == sdp + CandidateLine(codec, c)
  {
    hide Join, ShowSigned, ShowNat, KindName;
    var foundation := c.foundation[..Min(|c.foundation|, MAX_FOUNDATION)];
    var ip, port := codec.show(c.addr.ip), ShowNat(c.addr.port);
    var line :=
      "a=candidate:" + (foundation + " " + ShowSigned(c.component) + " " + "UDP" + " " + ShowSigned(c.priority));
    line := line + " " + (ip + " " + port + " " + "typ" + " " + KindName(c.kind));
    ghost var first := [foundation, ShowSigned(c.component), "UDP", ShowSigned(c.priority)];
    ghost var second := [ip, port, "typ", KindName(c.kind)];
    Join4(first[0], first[1], first[2], first[3]);
    Join4(second[0], second[1], second[2], second[3]);
    JoinConcat(first, second);
    if c.base.Some? && c.base.value != c.addr {
      var rip, rport := codec.show(c.base.value.ip), ShowNat(c.base.value.port);
      Join4("raddr", rip, "rport", rport);
      JoinConcat(first + second, Related(codec, c));
      line := line + " " + ("raddr" + " " + rip + " " + "rport" + " " + rport);
      assert Tokens(codec, c) == first + second + Related(codec, c);
      assert line == "a=candidate:" + (Join(first + second, ' ') + " " + Join(Related(codec, c), ' '));
    } else {
      assert Tokens(codec, c) == first + second;
    }
    out := sdp + line;
  }

  // ---------------------------------------------------------------------
  // Parsing a candidate

  /** What has been read of a candidate. */
  datatype Fields = Fields(
    foundation: string, component: nat, transport: string, priority: nat, addr: string, port: nat,
    typ: Option<string>, raddr: Option<string>, rport: Option<nat>)

  function Head(tokens: seq<string>): Fields
    requires |tokens| >= 6
  {
    Fields(tokens[0], ReadUnsigned(tokens[1]) % TWO32, tokens[2], ReadUnsigned(tokens[3]) % TWO32, tokens[4],
           ReadUnsigned(tokens[5]) % TWO16, None, None, None)
  }

  /** A name and its value. */
  function Extra(f: Fields, name: string, value: string): Fields {
    if name == "typ" then f.(typ := Some(value))
    else if name == "raddr" then f.(raddr := Some(value))
    else if name == "rport" then f.(rport := Some(ReadUnsigned(value) % TWO16))
    else f
  }

  /** Names and values in turn; a name without a value spoils the line. */
  function Extras(f: Fields, tokens: seq<string>): Option<Fields>
    decreases |tokens|
  {
    if tokens == [] then Some(f)
    else if |tokens| == 1 then None
    else Extras(Extra(f, tokens[0], tokens[1]), tokens[2..])
  }

  function Build(codec: Codec, f: Fields): Option<Candidate> {
    var kind := if f.typ.Some? then KindOf(f.typ.value) else None;
    var ip := codec.read(f.addr);
    if kind.None? || f.transport != "UDP" || ip.None? then None
    else
      var c := Candidate(kind.value, f.component, f.foundation[..Min(|f.foundation|, MAX_FOUNDATION - 1)], f.priority,
                         Address(ip.value, f.port), None);
      if f.raddr.Some? && f.rport.Some? && f.rport.value != 0 then
        var rip := codec.read(f.raddr.value);
        if rip.None? then None else Some(c.(base := Some(Address(rip.value, f.rport.value))))
      else Some(c)
  }

  predicate HasPrefix(s: string, prefix: string) {
    |prefix| <= |s| && s[..|prefix|] == prefix
  }

  function Parsed(codec: Codec, line: string): Option<Candidate> {
    if !HasPrefix(line, CandidatePrefix()) then None
    else
      var tokens := Split(line[12..], ' ');
      if |tokens| < 6 then None
      else
        var f := Extras(Head(tokens), tokens[6..]);
        if f.None? then None else Build(codec, f.value)
  }

  /** The token loop: the first six by position, the rest as pairs. */
  method ParseCandidate(codec: Codec, line: string) returns (c: Option<Candidate>)
    ensures c == Parsed(codec, line)
  {
    hide ReadUnsigned, Split, Extras, Extra, Build;
    if !HasPrefix(line, "a=candidate:") {
      return None;
    }
    var tokens := Split(line[12..], ' ');
    var f := Fields("", 0, "", 0, "", 0, None, None, None);
    var i := 0;
    while i < |tokens|
      invariant 0 <= i <= |tokens| || (i == |tokens| + 1 && i > 6)
      invariant i < 6 ==> f.typ.None? && f.raddr.None? && f.rport.None?
      invariant i <= 6 ==>
                  && (i > 0 ==> f.foundation == tokens[0])
                  && (i > 1 ==> f.component == ReadUnsigned(tokens[1]) % TWO32)
                  && (i > 2 ==> f.transport == tokens[2])
                  && (i > 3 ==> f.priority == ReadUnsigned(tokens[3]) % TWO32)
                  && (i > 4 ==> f.addr == tokens[4])
                  && (i > 5 ==> f == Head(tokens))
      invariant i >= 6 ==> i <= |tokens| && Extras(f, tokens[i..]) == Extras(Head(tokens), tokens[6..])
      decreases |tokens| - i
    {
      match i {
        case 0 => f := f.(foundation := tokens[i]);
        case 1 => f := f.(component := ReadUnsigned(tokens[i]) % TWO32);
        case 2 => f := f.(transport := tokens[i]);
        case 3 => f := f.(priority := ReadUnsigned(tokens[i]) % TWO32);
        case 4 => f := f.(addr := tokens[i]);
        case 5 => f := f.(port := ReadUnsigned(tokens[i]) % TWO16);
        case _ =>
          ExtrasStep(f, tokens[i..]);
          if i + 1 == |tokens| {
            return None;
          }
          f := Extra(f, tokens[i], tokens[i + 1]);
          assert tokens[i..][2..] == tokens[i + 2..];
          i := i + 1;
      }
      i := i + 1;
    }
    NoType(codec, f);
    if |tokens| >= 6 {
      ExtrasStep(f, tokens[i..]);
    }
    c := Build(codec, f);
  }

  lemma ExtrasStep(f: Fields, tokens: seq<string>)
    ensures Extras(f, tokens) ==
            if tokens == [] then Some(f)
            else if |tokens| == 1 then None
            else Extras(Extra(f, tokens[0], tokens[1]), tokens[2..])
  {
  }

  lemma NoType(codec: Codec, f: Fields)
    ensures f.typ.None? ==> Build(codec, f).None?
  {
  }

  // ---------------------------------------------------------------------
  // A candidate comes back

  /** Printed without separators, and read back. */
  predicate Printable(codec: Codec, ip: Ip) {
    ' ' !in codec.show(ip) && '\n' !in codec.show(ip) && codec.read(codec.show(ip)) == Some(ip)
  }

  predicate Good(codec: Codec, c: Candidate) {
    && Typed(c) && |c.foundation| < MAX_FOUNDATION && ' ' !in c.foundation && '\n' !in c.foundation
    && Printable(codec, c.addr.ip) && (c.base.Some? ==> Printable(codec, c.base.value.ip))
  }

  /** The related address comes back when it was printed and has a port. */
  function Returned(c: Candidate): Candidate {
    if Relates(c) && c.base.value.port != 0 then c else c.(base := None)
  }

  lemma PortBack(port: nat)
    requires port < TWO16
    ensures ReadUnsigned(ShowNat(port)) % TWO16 == port
  {
    NatRead(port);
  }

  lemma KindBack(kind: Kind)
    ensures KindOf(KindName(kind)) == Some(kind)
  {
  }

  lemma TokensFree(codec: Codec, c: Candidate, sep: char)
    requires Good(codec, c) && (sep == ' ' || sep == '\n')
    ensures Free(Tokens(codec, c), sep)
  {
    hide ShowSigned, ShowNat;
    NumberFree(c.component, sep);
    NumberFree(c.priority, sep);
    PortFree(c.addr.port, sep);
    if Relates(c) {
      PortFree(c.base.value.port, sep);
    }
  }

  lemma PortFree(port: nat, sep: char)
    requires !IsDigit(sep)
    ensures sep !in ShowNat(port)
  {
    DigitsOnly(port);
  }

  lemma HeadBack(codec: Codec, c: Candidate)
    requires Good(codec, c)
    ensures Head(Tokens(codec, c)) ==
            Fields(c.foundation, c.component, "UDP", c.priority, codec.show(c.addr.ip), c.addr.port, None, None, None)
  {
    hide ShowSigned, ShowNat, ReadUnsigned;
    WordBack(c.component);
    WordBack(c.priority);
    PortBack(c.addr.port);
    assert c.foundation[..|c.foundation|] == c.foundation;
  }

  lemma ExtrasBack(codec: Codec, c: Candidate, f: Fields)
    requires Good(codec, c) && f.raddr.None? && f.rport.None?
    ensures Extras(f, Tokens(codec, c)[6..]) ==
            Some(if Relates(c) then f.(typ := Some(KindName(c.kind)), raddr := Some(codec.show(c.base.value.ip)),
                                       rport := Some(c.base.value.port))
                 else f.(typ := Some(KindName(c.kind))))
  {
    hide ShowSigned, ShowNat, ReadUnsigned, Extras, KindName;
    var rest := Tokens(codec, c)[6..];
    ExtrasStep(f, rest);
    var f1 := f.(typ := Some(KindName(c.kind)));
    assert rest[0] == "typ" && rest[1] == KindName(c.kind);
    if Relates(c) {
      assert rest[2..] == Related(codec, c);
      var r := Related(codec, c);
      ExtrasStep(f1, r);
      var f2 := f1.(raddr := Some(codec.show(c.base.value.ip)));
      PortBack(c.base.value.port);
      assert r[2..] == ["rport", ShowNat(c.base.value.port)] && r[2..][2..] == [];
      assert Extra(f1, r[0], r[1]) == f2;
      ExtrasStep(f2, r[2..]);
      assert Extra(f2, "rport", ShowNat(c.base.value.port)) == f2.(rport := Some(c.base.value.port));
      ExtrasStep(f2.(rport := Some(c.base.value.port)), []);
    } else {
      assert rest[2..] == [];
      ExtrasStep(f1, []);
    }
  }

  /** Parsing a printed candidate gives it back. */
  lemma CandidateBack(codec: Codec, c: Candidate)
    requires Good(codec, c)
    ensures Parsed(codec, CandidateLine(codec, c)) == Some(Returned(c))
  {
    hide ShowSigned, ShowNat, ReadUnsigned, Extras, KindName, KindOf, Join, Split, Head, Tokens;
    var line := CandidateLine(codec, c);
    var tokens := Tokens(codec, c);
    TokensShape(codec, c);
    TokensFree(codec, c, ' ');
    JoinSome(tokens);
    SplitBack(tokens, ' ');
    assert line[..12] == CandidatePrefix() && line[12..] == Join(tokens, ' ');
    HeadBack(codec, c);
    ExtrasBack(codec, c, Head(tokens));
    KindBack(c.kind);
    assert c.foundation[..|c.foundation|] == c.foundation;
  }

  lemma TokensShape(codec: Codec, c: Candidate)
    requires Typed(c)
    ensures |Tokens(codec, c)| >= 8
  {
  }

  lemma JoinSome(tokens: seq<string>)
    requires |tokens| >= 2
    ensures Join(tokens, ' ') != ""
  {
  }

  // ---------------------------------------------------------------------
  // Streams

  /** The media lines for endpoints without ICE. */
  function MediaLines(codec: Codec, name: Option<string>, rtp: Address, rtcp: Address): seq<string> {
    ["m=" + (if name.Some? then name.value else "-") + " " + ShowNat(rtp.port) + " ICE/SDP",
     "c=IN IP4 " + codec.show(rtp.ip)]
    + (if rtcp.port != 0 then ["a=rtcp:" + ShowNat(rtcp.port)] else [])
  }

  function CandidateLines(codec: Codec, cands: seq<Candidate>): (r: seq<string>)
    requires forall i :: 0 <= i < |cands| ==> Typed(cands[i])
    ensures |r| == |cands| && forall i :: 0 <= i < |r| ==> r[i] == CandidateLine(codec, cands[i])
  {
    if cands == [] then []
    else CandidateLines(codec, cands[..|cands| - 1]) + [CandidateLine(codec, cands[|cands| - 1])]
  }

  function StreamLines(codec: Codec, media: seq<string>, ufrag: string, pwd: string, cands: seq<Candidate>): seq<string>
    requires forall i :: 0 <= i < |cands| ==> Typed(cands[i])
  {
    media + [UfragPrefix() + ufrag, PwdPrefix() + pwd] + CandidateLines(codec, cands)
  }

  /** Every line with its newline. */
  function Text(lines: seq<string>): string {
    if lines == [] then "" else Text(lines[..|lines| - 1]) + lines[|lines| - 1] + "\n"
  }

  /** Write a stream; the candidates of all components follow one another. */
  method GenerateStream(codec: Codec, media: seq<string>, ufrag: string, pwd: string, components: seq<seq<Candidate>>)
    returns (sdp: string)
    requires forall i, j :: 0 <= i < |components| && 0 <= j < |components[i]| ==> Typed(components[i][j])
    ensures var cands := Concat(components);
            (forall i :: 0 <= i < |cands| ==> Typed(cands[i])) &&
            sdp == Text(StreamLines(codec, media, ufrag, pwd, cands))
  {
    hide CandidateLine, Text, StreamLines, CandidateLines;
    sdp := Text(media);
    sdp := sdp + "a=ice-ufrag:" + ufrag + "\n";
    sdp := sdp + "a=ice-pwd:" + pwd + "\n";
    TextStart(codec, media, ufrag, pwd);
    ghost var done: seq<Candidate> := [];
    var i := 0;
    while i < |components|
      invariant 0 <= i <= |components| && done == Concat(components[..i])
      invariant forall k :: 0 <= k < |done| ==> Typed(done[k])
      invariant sdp == Text(StreamLines(codec, media, ufrag, pwd, done))
    {
      var j := 0;
      ghost var before := done;
      while j < |components[i]|
        invariant 0 <= j <= |components[i]| && done == before + components[i][..j]
        invariant forall k :: 0 <= k < |done| ==> Typed(done[k])
        invariant sdp == Text(StreamLines(codec, media, ufrag, pwd, done))
      {
        var c := components[i][j];
        sdp := GenerateCandidate(codec, c, sdp);
        sdp := sdp + "\n";
        StreamAppend(codec, media, ufrag, pwd, done, c);
        done := done + [c];
        j := j + 1;
      }
      ConcatStep(components, i);
      i := i + 1;
    }
    assert components[..|components|] == components;
  }

  function Concat(components: seq<seq<Candidate>>): seq<Candidate> {
    if components == [] then [] else Concat(components[..|components| - 1]) + components[|components| - 1]
  }

  lemma ConcatStep(components: seq<seq<Candidate>>, i: nat)
    requires i < |components|
    ensures Concat(components[..i + 1]) == Concat(components[..i]) + components[i]
    ensures components[i][..|components[i]|] == components[i]
  {
    assert components[..i + 1][..i] == components[..i];
  }

  lemma TextAppend(lines: seq<string>, line: string)
    ensures Text(lines + [line]) == Text(lines) + line + "\n"
  {
    assert (lines + [line])[..|lines|] == lines;
  }

  lemma TextStart(codec: Codec, media: seq<string>, ufrag: string, pwd: string)
    ensures Text(StreamLines(codec, media, ufrag, pwd, [])) ==
            Text(media) + "a=ice-ufrag:" + ufrag + "\n" + "a=ice-pwd:" + pwd + "\n"
  {
    hide Text;
    var u, p := UfragPrefix() + ufrag, PwdPrefix() + pwd;
    TextAppend(media, u);
    TextAppend(media + [u], p);
    assert StreamLines(codec, media, ufrag, pwd, []) == media + [u] + [p];
  }

  lemma StreamAppend(codec: Codec, media: seq<string>, ufrag: string, pwd: string, done: seq<Candidate>, c: Candidate)
    requires (forall k :: 0 <= k < |done| ==> Typed(done[k])) && Typed(c)
    ensures forall k :: 0 <= k < |done + [c]| ==> Typed((done + [c])[k])
    ensures Text(StreamLines(codec, media, ufrag, pwd, done + [c])) ==
            Text(StreamLines(codec, media, ufrag, pwd, done)) + CandidateLine(codec, c) + "\n"
  {
    hide CandidateLine, Text;
    assert (done + [c])[..|done|] == done;
    TextAppend(StreamLines(codec, media, ufrag, pwd, done), CandidateLine(codec, c));
    assert StreamLines(codec, media, ufrag, pwd, done + [c]) ==
           StreamLines(codec, media, ufrag, pwd, done) + [CandidateLine(codec, c)];
  }

  /** What parsing a stream yields; candidates are put in front. */
  datatype Result = Result(ufrag: Option<string>, pwd: Option<string>, cands: seq<Candidate>)

  function ParsedLines(codec: Codec, lines: seq<string>, r: Result): Result
    decreases |lines|
  {
    if lines == [] then r
    else
      var line, rest := lines[0], lines[1..];
      if HasPrefix(line, UfragPrefix()) then ParsedLines(codec, rest, r.(ufrag := Some(line[12..])))
      else if HasPrefix(line, PwdPrefix()) then ParsedLines(codec, rest, r.(pwd := Some(line[10..])))
      else if HasPrefix(line, CandidatePrefix()) then
        match Parsed(codec, line)
        case None => r.(cands := [])
        case Some(c) => ParsedLines(codec, rest, r.(cands := [c] + r.cands))
      else ParsedLines(codec, rest, r)
  }

  function ParsedStream(codec: Codec, sdp: string): Result {
    ParsedLines(codec, Split(sdp, '\n'), Result(None, None, []))
  }

  method ParseStream(codec: Codec, sdp: string)
    returns (ufrag: Option<string>, pwd: Option<string>, cands: seq<Candidate>)
    ensures Result(ufrag, pwd, cands) == ParsedStream(codec, sdp)
  {
    hide Parsed, Split;
    var lines := Split(sdp, '\n');
    ufrag, pwd, cands := None, None, [];
    var i := 0;
    while i < |lines|
      invariant 0 <= i <= |lines|
      invariant ParsedLines(codec, lines[i..], Result(ufrag, pwd, cands)) == ParsedStream(codec, sdp)
    {
      var line := lines[i];
      assert lines[i..][0] == line && lines[i..][1..] == lines[i + 1..];
      if HasPrefix(line, "a=ice-ufrag:") {
        ufrag := Some(line[12..]);
      } else if HasPrefix(line, "a=ice-pwd:") {
        pwd := Some(line[10..]);
      } else if HasPrefix(line, "a=candidate:") {
        var c := ParseCandidate(codec, line);
        if c.None? {
          cands := [];
          return;
        }
        cands := [c.value] + cands;
      }
      i := i + 1;
    }
  }

  // ---------------------------------------------------------------------
  // A stream comes back

  /** Not a line the parser looks at. */
  predicate Ignored(line: string) {
    !HasPrefix(line, UfragPrefix()) && !HasPrefix(line, PwdPrefix()) && !HasPrefix(line, CandidatePrefix())
  }

  lemma {:induction false} JoinIsText(lines: seq<string>)
    ensures Join(lines + [""], '\n') == Text(lines)
  {
    if lines == [] {
      assert lines + [""] == [""];
    } else {
      var n := |lines| - 1;
      JoinIsText(lines[..n]);
      JoinEnd(lines[..n], lines[n], '\n');
      assert lines[..n] + [lines[n], ""] == lines + [""];
    }
  }

  lemma {:induction false} JoinEnd(x: seq<string>, a: string, sep: char)
    ensures Join(x + [a, ""], sep) == Join(x + [""], sep) + a + [sep]
  {
    if x == [] {
      assert x + [a, ""] == [a, ""] && x + [""] == [""] && [a, ""][1..] == [""];
    } else {
      assert (x + [a, ""])[1..] == x[1..] + [a, ""] && (x + [""])[1..] == x[1..] + [""];
      JoinEnd(x[1..], a, sep);
      assert x[0] + [sep] + (Join(x[1..] + [""], sep) + a + [sep]) == Join(x + [""], sep) + a + [sep];
    }
  }

  lemma LinesBack(lines: seq<string>)
    requires lines != [] && Free(lines, '\n')
    ensures Split(Text(lines), '\n') == lines + [""]
  {
    JoinIsText(lines);
    SplitBack(lines + [""], '\n');
  }

  function ReturnedAll(cands: seq<Candidate>): seq<Candidate> {
    if cands == [] then [] else ReturnedAll(cands[1..]) + [Returned(cands[0])]
  }

  /** The candidate lines give the candidates in reverse order. */
  lemma {:induction false} CandidatesBack(codec: Codec, cands: seq<Candidate>, r: Result)
    requires forall i :: 0 <= i < |cands| ==> Good(codec, cands[i])
    ensures (forall i :: 0 <= i < |cands| ==> Typed(cands[i])) &&
            ParsedLines(codec, CandidateLines(codec, cands) + [""], r) == r.(cands := ReturnedAll(cands) + r.cands)
    decreases |cands|
  {
    hide Parsed, CandidateLine, Good;
    GoodTyped(codec, cands);
    var lines := CandidateLines(codec, cands) + [""];
    if cands == [] {
      assert lines == [""] && lines[1..] == [];
      assert ReturnedAll(cands) + r.cands == r.cands;
    } else {
      GoodTyped(codec, cands[1..]);
      assert lines[1..] == CandidateLines(codec, cands[1..]) + [""];
      CandidateBack(codec, cands[0]);
      LinePrefix(codec, cands[0]);
      CandidatesBack(codec, cands[1..], r.(cands := [Returned(cands[0])] + r.cands));
      assert ReturnedAll(cands[1..]) + ([Returned(cands[0])] + r.cands) == ReturnedAll(cands) + r.cands;
    }
  }

  lemma GoodTyped(codec: Codec, cands: seq<Candidate>)
    requires forall i :: 0 <= i < |cands| ==> Good(codec, cands[i])
    ensures forall i :: 0 <= i < |cands| ==> Typed(cands[i])
  {
  }

  lemma LinePrefix(codec: Codec, c: Candidate)
    requires Typed(c)
    ensures var line := CandidateLine(codec, c);
            HasPrefix(line, CandidatePrefix()) && !HasPrefix(line, UfragPrefix()) && !HasPrefix(line, PwdPrefix())
  {
    hide Join, Tokens;
    var line := CandidateLine(codec, c);
    assert line[2] == 'c' && line[..12] == CandidatePrefix();
    NotPrefix(line);
  }

  lemma NotPrefix(line: string)
    requires |line| >= 3 && line[2] != 'i'
    ensures !HasPrefix(line, UfragPrefix()) && !HasPrefix(line, PwdPrefix())
  {
    assert UfragPrefix()[2] == 'i' && PwdPrefix()[2] == 'i';
    assert |line| >= 12 ==> line[..12][2] == line[2];
    assert |line| >= 10 ==> line[..10][2] == line[2];
  }

  lemma {:induction false} IgnoredBack(codec: Codec, media: seq<string>, lines: seq<string>, r: Result)
    requires forall i :: 0 <= i < |media| ==> Ignored(media[i])
    ensures ParsedLines(codec, media + lines, r) == ParsedLines(codec, lines, r)
    decreases |media|
  {
    hide Parsed, HasPrefix;
    if media == [] {
      assert media + lines == lines;
    } else {
      assert (media + lines)[1..] == media[1..] + lines;
      IgnoredBack(codec, media[1..], lines, r);
    }
  }

  lemma LineFree(codec: Codec, c: Candidate)
    requires Good(codec, c)
    ensures '\n' !in CandidateLine(codec, c)
  {
    hide Tokens, Join;
    TokensShape(codec, c);
    TokensFree(codec, c, '\n');
    JoinFree(Tokens(codec, c));
  }

  lemma {:induction false} JoinFree(tokens: seq<string>)
    requires tokens != [] && Free(tokens, '\n')
    ensures '\n' !in Join(tokens, ' ')
  {
    if |tokens| > 1 {
      JoinFree(tokens[1..]);
    }
  }

  lemma HeadLines(codec: Codec, ufrag: string, pwd: string, rest: seq<string>)
    ensures ParsedLines(codec, [UfragPrefix() + ufrag, PwdPrefix() + pwd] + rest, Result(None, None, [])) ==
            ParsedLines(codec, rest, Result(Some(ufrag), Some(pwd), []))
  {
    hide Parsed;
    var u, p := UfragPrefix() + ufrag, PwdPrefix() + pwd;
    assert u[..12] == UfragPrefix() && u[12..] == ufrag;
    assert p[..10] == PwdPrefix() && p[10..] == pwd;
    assert p[6] == 'p';
    PwdNotUfrag(p);
    var lines := [u, p] + rest;
    assert lines[1..] == [p] + rest && lines[1..][1..] == rest;
  }

  lemma PwdNotUfrag(p: string)
    requires |p| >= 10 && p[6] == 'p'
    ensures !HasPrefix(p, UfragPrefix())
  {
    assert UfragPrefix()[6] == 'u';
    assert |p| >= 12 ==> p[..12][6] == p[6];
  }

  /** Parsing a generated stream gives back the user fragment, the password and the
      candidates, these in reverse order. */
  lemma StreamBack(codec: Codec, media: seq<string>, ufrag: string, pwd: string, cands: seq<Candidate>)
    requires forall i :: 0 <= i < |cands| ==> Good(codec, cands[i])
    requires Free(media, '\n') && '\n' !in ufrag && '\n' !in pwd
    requires forall i :: 0 <= i < |media| ==> Ignored(media[i])
    ensures (forall i :: 0 <= i < |cands| ==> Typed(cands[i])) &&
            var sdp := Text(StreamLines(codec, media, ufrag, pwd, cands));
            ParsedStream(codec, sdp) == Result(Some(ufrag), Some(pwd), ReturnedAll(cands))
  {
    hide Parsed, CandidateLine, CandidateLines, Good, ParsedLines, Text, Split, Ignored, Free, StreamLines, UfragPrefix,
      PwdPrefix;
    GoodTyped(codec, cands);
    var head := [UfragPrefix() + ufrag, PwdPrefix() + pwd];
    var tail := CandidateLines(codec, cands);
    StreamFree(codec, media, ufrag, pwd, cands);
    LinesBack(StreamLines(codec, media, ufrag, pwd, cands));
    IgnoredBack(codec, media, head + (tail + [""]), Result(None, None, []));
    HeadLines(codec, ufrag, pwd, tail + [""]);
    CandidatesBack(codec, cands, Result(Some(ufrag), Some(pwd), []));
    assert ReturnedAll(cands) + [] == ReturnedAll(cands);
  }

  lemma StreamFree(codec: Codec, media: seq<string>, ufrag: string, pwd: string, cands: seq<Candidate>)
    requires forall i :: 0 <= i < |cands| ==> Good(codec, cands[i])
    requires Free(media, '\n') && '\n' !in ufrag && '\n' !in pwd
    ensures forall i :: 0 <= i < |cands| ==> Typed(cands[i])
    ensures var lines := StreamLines(codec, media, ufrag, pwd, cands);
            && lines != [] && Free(lines, '\n')
            && lines + [""] ==
               media + ([UfragPrefix() + ufrag, PwdPrefix() + pwd] + (CandidateLines(codec, cands) + [""]))
  {
    hide CandidateLine, Good;
    GoodTyped(codec, cands);
    var tail := CandidateLines(codec, cands);
    forall i | 0 <= i < |cands|
      ensures '\n' !in tail[i]
    {
      LineFree(codec, cands[i]);
    }
    var u, p := UfragPrefix() + ufrag, PwdPrefix() + pwd;
    assert '\n' !in u && '\n' !in p;
    FreeConcat(media, [u, p]);
    FreeConcat(media + [u, p], tail);
  }

  lemma FreeConcat(x: seq<string>, y: seq<string>)
    requires Free(x, '\n') && Free(y, '\n')
    ensures Free(x + y, '\n')
  {
  }

  /** The media lines are such lines. */
  lemma MediaIgnored(codec: Codec, name: Option<string>, rtp: Address, rtcp: Address)
    requires (name.Some? ==> '\n' !in name.value) && '\n' !in codec.show(rtp.ip)
    ensures var media := MediaLines(codec, name, rtp, rtcp);
            Free(media, '\n') && forall i :: 0 <= i < |media| ==> Ignored(media[i])
  {
    hide ShowNat;
    PortFree(rtp.port, '\n');
    PortFree(rtcp.port, '\n');
    var media := MediaLines(codec, name, rtp, rtcp);
    OtherLine(media[0]);
    OtherLine(media[1]);
    if rtcp.port != 0 {
      OtherLine(media[2]);
    }
  }

  lemma OtherLine(line: string)
    requires |line| >= 3 && (line[0] != 'a' || line[2] == 'r')
    ensures Ignored(line)
  {
    assert CandidatePrefix()[0] == 'a' && CandidatePrefix()[2] == 'c';
    assert UfragPrefix()[0] == 'a' && UfragPrefix()[2] == 'i';
    assert PwdPrefix()[0] == 'a' && PwdPrefix()[2] == 'i';
    assert |line| >= 12 ==> line[..12][0] == line[0] && line[..12][2] == line[2];
    assert |line| >= 10 ==> line[..10][0] == line[0] && line[..10][2] == line[2];
  }
}
