/** The configuration file reader of WebservConfig.cpp: a line loop that
    tracks whether it is before any block, inside a `server:` block or
    inside a `location` block, with the directive parsers for each kind of
    block, the listen-address parser, the inheritance of server defaults
    into locations and the final ordering of locations by path length.
    A line is read from an in-memory sequence; the istringstream each
    directive is read from is the Stream of module Streams. */
module ConfigParser {
  import opened Wrappers
  import opened Strings
  import opened Streams
  import opened Http
  import opened Config

  // ---------------------------------------------------------------------
  // Indentation

  /** The indentation of a line: 1 per leading space, 4 per leading tab,
      counted up to the first other character. */
  function Indentation(line: string): nat
  {
    if line == [] then 0
    else if line[0] == ' ' then 1 + Indentation(line[1..])
    else if line[0] == '\t' then 4 + Indentation(line[1..])
    else 0
  }

  predicate Blanks(s: string)
  {
    forall k :: 0 <= k < |s| ==> s[k] == ' ' || s[k] == '\t'
  }

  /** The indentation depends only on the leading run of blanks: the number
      of its spaces plus four times the number of its tabs. */
  lemma {:induction false} IndentationOfBlanks(blanks: string, rest: string)
    requires Blanks(blanks)
    requires rest == [] || (rest[0] != ' ' && rest[0] != '\t')
    ensures Indentation(blanks + rest) == multiset(blanks)[' '] + 4 * multiset(blanks)['\t']
    decreases |blanks|
  {
    if blanks != [] {
      var s := blanks + rest;
      assert s[1..] == blanks[1..] + rest;
      assert blanks == [blanks[0]] + blanks[1..];
      assert multiset(blanks) == multiset{blanks[0]} + multiset(blanks[1..]);
      IndentationOfBlanks(blanks[1..], rest);
    } else {
      assert blanks + rest == rest;
    }
  }

  /** _getIndentation. */
  method GetIndentation(line: string) returns (indentation: nat)
    ensures indentation == Indentation(line)
  {
    indentation := 0;
    var i := 0;
    while i < |line| && (line[i] == ' ' || line[i] == '\t')
      invariant 0 <= i <= |line|
      invariant indentation + Indentation(line[i..]) == Indentation(line)
    {
      assert line[i..][1..] == line[i + 1..];
      indentation := indentation + (if line[i] == ' ' then 1 else 4);
      i := i + 1;
    }
    assert i == |line| ==> line[i..] == [];
  }

  // ---------------------------------------------------------------------
  // IPv4 addresses

  /** static_cast<uint32_t>(std::stoi(octet)) when it is at most 255; None
      where stoi throws or the value is out of range (a negative value casts
      to more than 255). */
  function Octet(text: string): (r: Option<nat>)
    ensures r.Some? ==> r.value <= 255
  {
    var n := Stoi(text);
    if n.Converted? && 0 <= n.value <= 255 then Some(n.value) else None
  }

  /** An octet is accepted exactly when stoi converts it to a value in
      0..255, and it is that value. */
  lemma OctetMeaning(text: string)
    ensures Octet(text).Some? <==> Stoi(text).Converted? && 0 <= Stoi(text).value <= 255
    ensures Octet(text).Some? ==> Octet(text).value == Stoi(text).value
  {
  }

  const TWO_TO_32: nat := 0x1_0000_0000

  function Pow2(k: nat): (r: nat)
    ensures r >= 1
  {
    if k == 0 then 1 else 2 * Pow2(k - 1)
  }

  /** The bitwise or of two unsigned values. */
  function BitOr(x: nat, y: nat): nat
    decreases x + y
  {
    if x == 0 then y
    else if y == 0 then x
    else 2 * BitOr(x / 2, y / 2) + (if x % 2 == 1 || y % 2 == 1 then 1 else 0)
  }

  /** Or-ing values whose bits do not overlap adds them. */
  lemma {:induction false} BitOrDisjoint(x: nat, k: nat, y: nat)
    requires y < Pow2(k)
    ensures BitOr(x * Pow2(k), y) == x * Pow2(k) + y
    decreases k
  {
    if x != 0 && y != 0 {
      assert k > 0;
      var p := Pow2(k - 1);
      assert x * Pow2(k) == 2 * (x * p);
      assert (x * Pow2(k)) / 2 == x * p && (x * Pow2(k)) % 2 == 0;
      BitOrDisjoint(x, k - 1, y / 2);
    }
  }

  /** Both arguments below 2^k give a result below 2^k. */
  lemma {:induction false} BitOrBound(x: nat, y: nat, k: nat)
    requires x < Pow2(k) && y < Pow2(k)
    ensures BitOr(x, y) < Pow2(k)
    decreases x + y
  {
    if x != 0 && y != 0 {
      assert k > 0;
      BitOrBound(x / 2, y / 2, k - 1);
    }
  }

  lemma BitOrBound32(x: nat, y: nat)
    requires x < TWO_TO_32 && y < TWO_TO_32
    ensures BitOr(x, y) < TWO_TO_32
  {
    Pow2Values();
    BitOrBound(x, y, 32);
  }

  lemma Pow2Values()
    ensures Pow2(8) == 0x100 && Pow2(16) == 0x1_0000 && Pow2(24) == 0x100_0000 && Pow2(32) == TWO_TO_32
  {
    assert Pow2(4) == 16;
    assert Pow2(8) == 16 * Pow2(4) by {
      assert Pow2(8) == 2 * Pow2(7) == 4 * Pow2(6) == 8 * Pow2(5) == 16 * Pow2(4);
    }
    assert Pow2(16) == 256 * Pow2(8) by {
      assert Pow2(16) == 16 * Pow2(12) by {
        assert Pow2(16) == 2 * Pow2(15) == 4 * Pow2(14) == 8 * Pow2(13) == 16 * Pow2(12);
      }
      assert Pow2(12) == 16 * Pow2(8) by {
        assert Pow2(12) == 2 * Pow2(11) == 4 * Pow2(10) == 8 * Pow2(9) == 16 * Pow2(8);
      }
    }
    assert Pow2(24) == 256 * Pow2(16) by {
      assert Pow2(24) == 16 * Pow2(20) by {
        assert Pow2(24) == 2 * Pow2(23) == 4 * Pow2(22) == 8 * Pow2(21) == 16 * Pow2(20);
      }
      assert Pow2(20) == 16 * Pow2(16) by {
        assert Pow2(20) == 2 * Pow2(19) == 4 * Pow2(18) == 8 * Pow2(17) == 16 * Pow2(16);
      }
    }
    assert Pow2(32) == 256 * Pow2(24) by {
      assert Pow2(32) == 16 * Pow2(28) by {
        assert Pow2(32) == 2 * Pow2(31) == 4 * Pow2(30) == 8 * Pow2(29) == 16 * Pow2(28);
      }
      assert Pow2(28) == 16 * Pow2(24) by {
        assert Pow2(28) == 2 * Pow2(27) == 4 * Pow2(26) == 8 * Pow2(25) == 16 * Pow2(24);
      }
    }
  }

  /** octetValue << shift for the octet at index count, whose shift is
      24 - 8 * count: 24, 16, 8, 0, -8, ...  A negative shift (a fifth
      octet) is undefined in C++; the model takes the x86 behaviour of using
      the count modulo 32, so the shift only depends on count modulo 4.  An
      octet is at most 255, so nothing is shifted out. */
  function Shifted(v: nat, count: nat): (r: nat)
    requires v <= 255
    ensures r < TWO_TO_32
  {
    var m := count % 4;
    if m == 0 then v * 0x100_0000 else if m == 1 then v * 0x1_0000 else if m == 2 then v * 0x100 else v
  }

  /** The loop variables of _ipStringToDecimal but the shift, which is
      24 - 8 * count. */
  datatype IpAcc = IpAcc(result: nat, count: nat)

  /** The loop variables after the given octet texts, or None once an octet
      throws; the result stays a 32-bit value. */
  function IpFold(octets: seq<string>): (r: Option<IpAcc>)
    ensures r.Some? ==> r.value.count == |octets| && r.value.result < TWO_TO_32
    decreases |octets|
  {
    if octets == [] then Some(IpAcc(0, 0))
    else
      var front := octets[..|octets| - 1];
      match IpFold(front)
      case None => None
      case Some(a) =>
        match Octet(octets[|octets| - 1])
        case None => None
        case Some(v) =>
          BitOrBound32(a.result, Shifted(v, a.count));
          Some(IpAcc(BitOr(a.result, Shifted(v, a.count)), a.count + 1))
  }

  /** One more octet that parses. */
  lemma IpFoldStep(front: seq<string>, octet: string, a: IpAcc, v: nat)
    requires IpFold(front) == Some(a) && Octet(octet) == Some(v)
    ensures IpFold(front + [octet]) == Some(IpAcc(BitOr(a.result, Shifted(v, a.count)), a.count + 1))
  {
    assert (front + [octet])[..|front|] == front;
  }

  /** The octets parse exactly when each of them does. */
  lemma {:induction false} IpFoldDefined(octets: seq<string>)
    ensures IpFold(octets).Some? <==> forall i :: 0 <= i < |octets| ==> Octet(octets[i]).Some?
    decreases |octets|
  {
    if octets != [] {
      var front := octets[..|octets| - 1];
      assert forall i :: 0 <= i < |front| ==> front[i] == octets[i];
      IpFoldDefined(front);
    }
  }

  /** What _ipStringToDecimal returns, or None where it throws: the octets
      are the '.'-separated pieces; a count other than four is refused
      unless the result is 0. */
  function IpValue(ip: string): (r: Option<nat>)
    ensures r.Some? ==> forall t :: t in Tokens(Open(ip), '.') ==> Octet(t).Some?
    ensures r.Some? ==> |Tokens(Open(ip), '.')| == 4 || r.value == 0
    ensures r.Some? ==> r.value < TWO_TO_32
  {
    var octets := Tokens(Open(ip), '.');
    IpFoldDefined(octets);
    match IpFold(octets)
    case None => None
    case Some(a) => if a.count != 4 && a.result != 0 then None else Some(a.result)
  }

  /** The dotted-quad text of four octets. */
  function Quad(a: nat, b: nat, c: nat, d: nat): string
  {
    NatToString(a) + "." + NatToString(b) + "." + NatToString(c) + "." + NatToString(d)
  }

  /** _ipStringToDecimal. */
  method IpStringToDecimal(ip: string) returns (r: Option<nat>)
    ensures r == IpValue(ip)
  {
    var acc := FoldOctets(ip);
    if acc.None? {
      return None;
    }
    if acc.value.count != 4 && acc.value.result != 0 {
      return None;
    }
    r := Some(acc.value.result);
  }

  /** The getline loop of _ipStringToDecimal, up to the first octet that
      throws. */
  method FoldOctets(ip: string) returns (acc: Option<IpAcc>)
    ensures acc == IpFold(Tokens(Open(ip), '.'))
  {
    ghost var all := Tokens(Open(ip), '.');
    var result: nat := 0;
    var st := Open(ip);
    var shift := 24;
    var count: nat := 0;
    ghost var done: seq<string> := [];
    var rd := GetLine(st, '.');
    while rd.st.Ok()
      invariant st.Valid() && st.text == ip
      invariant rd == GetLine(st, '.')
      invariant done + Tokens(st, '.') == all
      invariant IpFold(done) == Some(IpAcc(result, count)) && shift == 24 - 8 * count
      decreases |ip| - st.pos
    {
      var octet := rd.value.value;
      TokensStep(st, '.');
      SeqAssoc(done, [octet], Tokens(rd.st, '.'));
      var v := Octet(octet);
      if v.None? {
        IpFoldStops(done, octet, Tokens(rd.st, '.'));
        return None;
      }
      IpFoldStep(done, octet, IpAcc(result, count), v.value);
      result := BitOr(result, Shifted(v.value, count));
      shift := shift - 8;
      count := count + 1;
      done := done + [octet];
      st := rd.st;
      rd := GetLine(st, '.');
    }
    TokensStop(st, '.');
    assert done + [] == done;
    acc := Some(IpAcc(result, count));
  }

  lemma SeqAssoc<T>(a: seq<T>, b: seq<T>, c: seq<T>)
    ensures a + (b + c) == (a + b) + c
  {
  }

  /** A getline that fails ends the pieces. */
  lemma TokensStop(st: Stream, delim: char)
    requires st.Valid() && !GetLine(st, delim).st.Ok()
    ensures Tokens(st, delim) == []
  {
  }

  /** A getline that succeeds gives the first piece. */
  lemma TokensStep(st: Stream, delim: char)
    requires st.Valid() && GetLine(st, delim).st.Ok()
    ensures Tokens(st, delim) == [GetLine(st, delim).value.value] + Tokens(GetLine(st, delim).st, delim)
  {
  }

  lemma IpFoldStops(done: seq<string>, octet: string, more: seq<string>)
    requires Octet(octet).None?
    ensures IpFold(done + [octet] + more).None?
  {
    assert (done + [octet])[..|done|] == done;
    assert IpFold(done + [octet]).None?;
    IpFoldNone(done + [octet], more);
  }

  /** Once an octet throws, later octets change nothing. */
  lemma IpFoldNone(front: seq<string>, more: seq<string>)
    requires IpFold(front).None?
    ensures IpFold(front + more).None?
  {
    IpFoldDefined(front);
    var i :| 0 <= i < |front| && Octet(front[i]).None?;
    assert (front + more)[i] == front[i];
    IpFoldDefined(front + more);
  }

  /** getline over pieces each followed by the delimiter, then a last piece
      without one, returns exactly those pieces. */
  lemma {:induction false} TokensOfPieces(st: Stream, delim: char, init: seq<string>, last: string)
    requires st.Valid() && st.Good()
    requires forall t :: t in init ==> delim !in t
    requires last != [] && delim !in last
    requires st.text[st.pos..] == Terminated(init, delim) + last
    ensures Tokens(st, delim) == init + [last]
    decreases |init|
  {
    if init == [] {
      assert st.text[st.pos..] == last;
      GetLineToEnd(st, delim);
      var r := GetLine(st, delim);
      assert r.st.Ok();
      TokensStep(st, delim);
      assert Tokens(r.st, delim) == [];
      assert [last] + [] == init + [last];
    } else {
      var p := init[0];
      var st' := st.(pos := st.pos + |p| + 1);
      FirstPiece(st, delim, init, last);
      assert forall t :: t in init[1..] ==> t in init;
      TokensOfPieces(st', delim, init[1..], last);
      TokensStep(st, delim);
      assert Tokens(st, delim) == [p] + (init[1..] + [last]);
      SeqAssoc([p], init[1..], [last]);
      assert init == [p] + init[1..];
    }
  }

  /** The first getline over such pieces returns the first piece. */
  lemma FirstPiece(st: Stream, delim: char, init: seq<string>, last: string)
    requires st.Valid() && st.Good()
    requires init != [] && delim !in init[0]
    requires st.text[st.pos..] == Terminated(init, delim) + last
    ensures var st' := st.(pos := st.pos + |init[0]| + 1);
      && GetLine(st, delim) == Read(st', Some(init[0]))
      && st'.Valid() && st'.Good()
      && st'.text[st'.pos..] == Terminated(init[1..], delim) + last
  {
    TerminatedFront(init, delim, last);
    PieceAhead(st, delim, init[0], Terminated(init[1..], delim) + last);
  }

  lemma TerminatedFront(init: seq<string>, delim: char, last: string)
    requires init != []
    ensures Terminated(init, delim) + last == (init[0] + [delim]) + (Terminated(init[1..], delim) + last)
  {
    SeqAssoc(init[0] + [delim], Terminated(init[1..], delim), last);
  }

  /** getline on a piece, the delimiter and rest. */
  lemma PieceAhead(st: Stream, delim: char, p: string, rest: string)
    requires st.Valid() && st.Good() && delim !in p
    requires st.text[st.pos..] == (p + [delim]) + rest
    ensures var st' := st.(pos := st.pos + |p| + 1);
      && GetLine(st, delim) == Read(st', Some(p))
      && st'.Valid()
      && st'.text[st'.pos..] == rest
  {
    var text := st.text[st.pos..];
    assert text[..|p| + 1] == p + [delim];
    GetLineUpTo(st, delim, p);
    assert st.text[st.pos + |p| + 1..] == text[|p| + 1..];
  }

  /** The value of four octets with the first one most significant. */
  function QuadValue(a: nat, b: nat, c: nat, d: nat): nat
  {
    a * 0x100_0000 + b * 0x1_0000 + c * 0x100 + d
  }

  /** Four decimal octets of at most 255 land at shifts 24, 16, 8 and 0. */
  lemma IpOfQuad(a: nat, b: nat, c: nat, d: nat)
    requires a <= 255 && b <= 255 && c <= 255 && d <= 255
    ensures IpValue(Quad(a, b, c, d)) == Some(QuadValue(a, b, c, d))
  {
    var sa, sb, sc, sd := NatToString(a), NatToString(b), NatToString(c), NatToString(d);
    QuadTokens(a, b, c, d);
    OctetOfDecimal(a);
    OctetOfDecimal(b);
    OctetOfDecimal(c);
    OctetOfDecimal(d);
    IpQuadFold(a, b, c, d, sa, sb, sc, sd);
    assert [sa, sb, sc] + [sd] == [sa, sb, sc, sd];
  }

  /** A decimal text holds nothing but digits. */
  lemma DecimalLacks(n: nat, c: char)
    requires !IsDigit(c)
    ensures c !in NatToString(n)
  {
    var s := NatToString(n);
    assert forall k :: 0 <= k < |s| ==> IsDigit(s[k]);
  }

  lemma OctetOfDecimal(n: nat)
    requires n <= 255
    ensures Octet(NatToString(n)) == Some(n)
  {
    StoiOfDecimal(n, []);
    assert NatToString(n) + [] == NatToString(n);
  }

  /** The pieces of a dotted quad are the four decimal texts. */
  lemma QuadTokens(a: nat, b: nat, c: nat, d: nat)
    ensures Tokens(Open(Quad(a, b, c, d)), '.')
      == [NatToString(a), NatToString(b), NatToString(c), NatToString(d)]
  {
    var sa, sb, sc, sd := NatToString(a), NatToString(b), NatToString(c), NatToString(d);
    DecimalLacks(a, '.');
    DecimalLacks(b, '.');
    DecimalLacks(c, '.');
    DecimalLacks(d, '.');
    TerminatedThree(sa, sb, sc);
    assert Quad(a, b, c, d) == Terminated([sa, sb, sc], '.') + sd;
    TokensOfPieces(Open(Quad(a, b, c, d)), '.', [sa, sb, sc], sd);
  }

  lemma TerminatedThree(sa: string, sb: string, sc: string)
    ensures Terminated([sa, sb, sc], '.') == sa + "." + sb + "." + sc + "."
  {
    var t3 := Terminated([sc], '.');
    assert [sc][1..] == [];
    assert Terminated([], '.') == [];
    assert t3 == sc + ['.'] + [];
    assert t3 == sc + ".";
    assert [sb, sc][1..] == [sc];
    var t2 := Terminated([sb, sc], '.');
    assert t2 == sb + "." + t3;
    assert t2 == sb + "." + sc + ".";
    assert [sa, sb, sc][1..] == [sb, sc];
    var t1 := Terminated([sa, sb, sc], '.');
    assert t1 == sa + "." + t2;
  }

  /** The fold over four octets that parse to a, b, c and d. */
  lemma IpQuadFold(a: nat, b: nat, c: nat, d: nat, sa: string, sb: string, sc: string, sd: string)
    requires a <= 255 && b <= 255 && c <= 255 && d <= 255
    requires Octet(sa) == Some(a) && Octet(sb) == Some(b) && Octet(sc) == Some(c) && Octet(sd) == Some(d)
    ensures IpFold([sa, sb, sc] + [sd]) == Some(IpAcc(QuadValue(a, b, c, d), 4))
  {
    assert IpFold([]) == Some(IpAcc(0, 0));
    var v1 := a * 0x100_0000;
    IpFoldStep([], sa, IpAcc(0, 0), a);
    assert BitOr(0, Shifted(a, 0)) == v1;
    assert [] + [sa] == [sa];
    var x := a * 0x100 + b;
    IpFoldStep([sa], sb, IpAcc(v1, 1), b);
    OrAt16(a, b);
    assert [sa] + [sb] == [sa, sb];
    var y := x * 0x100 + c;
    IpFoldStep([sa, sb], sc, IpAcc(x * 0x1_0000, 2), c);
    OrAt8(x, c);
    assert [sa, sb] + [sc] == [sa, sb, sc];
    IpFoldStep([sa, sb, sc], sd, IpAcc(y * 0x100, 3), d);
    OrAt0(y, d);
    QuadArith(a, b, c, d);
  }

  lemma QuadArith(a: nat, b: nat, c: nat, d: nat)
    ensures ((a * 0x100 + b) * 0x100 + c) * 0x100 + d == QuadValue(a, b, c, d)
  {
    assert (a * 0x100 + b) * 0x100 == a * 0x1_0000 + b * 0x100;
    assert (a * 0x1_0000 + b * 0x100 + c) * 0x100 == a * 0x100_0000 + b * 0x1_0000 + c * 0x100;
  }

  lemma OrAt16(a: nat, b: nat)
    requires b <= 255
    ensures BitOr(a * 0x100_0000, Shifted(b, 1)) == (a * 0x100 + b) * 0x1_0000
  {
    Pow2Values();
    BitOrDisjoint(a, 24, b * 0x1_0000);
  }

  lemma OrAt8(x: nat, c: nat)
    requires c <= 255
    ensures BitOr(x * 0x1_0000, Shifted(c, 2)) == (x * 0x100 + c) * 0x100
  {
    Pow2Values();
    BitOrDisjoint(x, 16, c * 0x100);
  }

  lemma OrAt0(y: nat, d: nat)
    requires d <= 255
    ensures BitOr(y * 0x100, Shifted(d, 3)) == y * 0x100 + d
  {
    Pow2Values();
    BitOrDisjoint(y, 8, d);
  }

  /** An octet above 255, after octets that parse, makes the address
      throw. */
  lemma IpRejectsLargeOctet(ip: string, i: nat)
    requires i < |Tokens(Open(ip), '.')|
    requires Stoi(Tokens(Open(ip), '.')[i]).Converted? && Stoi(Tokens(Open(ip), '.')[i]).value > 255
    ensures IpValue(ip).None?
  {
    OctetMeaning(Tokens(Open(ip), '.')[i]);
    assert Octet(Tokens(Open(ip), '.')[i]).None?;
  }

  // ---------------------------------------------------------------------
  // listen: [ip:]port

  /** The text the port is read from: after the last ':' (npos + 1 == 0
      reads the whole line). */
  function PortText(line: string): (t: string)
    ensures EndsWith(line, t) && ':' !in t
  {
    match RFindChar(line, ':')
    case Some(k) =>
      assert line[k + 1..] == line[|line| - |line[k + 1..]|..];
      line[k + 1..]
    case None => line
  }

  /** The address text: what getline up to ':' leaves in ip_address. */
  function IpText(st: Stream): string
    requires st.Valid()
  {
    GetLine(st, ':').value.GetOr("")
  }

  /** The line holds two different ':' (find(":") != find_last_of(":")). */
  predicate HasAddress(line: string)
  {
    FindChar(line, ':', 0) != RFindChar(line, ':')
  }

  /** A port in 1..65535 and an address that fits in 32 bits. */
  predicate ValidListen(l: Listen)
  {
    1 <= l.port <= 65535 && l.ip < TWO_TO_32
  }

  /** The pair _parseListenGroup appends, or None where it returns 1: the
      port must convert with stol and lie in 1..65535, and the address is
      parsed only when the line has a second ':', else it is 0. */
  function ListenEntry(line: string, st: Stream): (r: Option<Listen>)
    requires st.Valid()
    ensures r.Some? <==>
      && Stol(PortText(line)).Converted? && 1 <= Stol(PortText(line)).value <= 65535
      && (HasAddress(line) ==> IpValue(IpText(st)).Some?)
    ensures r.Some? ==> r.value.port == Stol(PortText(line)).value
    ensures r.Some? && !HasAddress(line) ==> r.value.ip == 0
    ensures r.Some? && HasAddress(line) ==> Some(r.value.ip) == IpValue(IpText(st))
    ensures r.Some? ==> ValidListen(r.value)
  {
    match Stol(PortText(line))
    case Converted(port) =>
      if port < 1 || port > 65535 then None
      else if !HasAddress(line) then Some(Listen(0, port))
      else
        (match IpValue(IpText(st))
         case Some(ip) => Some(Listen(ip, port))
         case None => None)
    case _ => None
  }

  /** _parseListenGroup: the pair is appended, or the server is left as it
      was and 1 is returned. */
  method ParseListenGroup(server: ServerData, st: Stream, line: string)
    returns (rc: int, server': ServerData)
    requires st.Valid()
    ensures rc == 0 || rc == 1
    ensures rc == 0 <==> ListenEntry(line, st).Some?
    ensures rc == 0 ==> server' == server.(listenGroup := server.listenGroup + [ListenEntry(line, st).value])
    ensures rc == 1 ==> server' == server
  {
    server' := server;
    var ip: nat := 0;
    var portValue := Stol(PortText(line));
    if !portValue.Converted? || portValue.value < 1 || portValue.value > 65535 {
      return 1, server;
    }
    if HasAddress(line) {
      var ipAddress := IpText(st);
      var v := IpStringToDecimal(ipAddress);
      if v.None? {
        return 1, server;
      }
      ip := v.value;
    }
    server' := server.(listenGroup := server.listenGroup + [Listen(ip, portValue.value)]);
    rc := 0;
  }

  lemma IpTextBeforeColon(q: string, n: string)
    requires ':' !in q
    ensures IpText(Open(q + [':'] + n)) == q
  {
    GetFirstLine(q, ':', n);
  }

  /** A line with a single ':' listens on every address at the port after
      it. */
  lemma ListenPortOnly(head: string, port: nat, st: Stream)
    requires ':' !in head && 1 <= port <= 65535 && st.Valid()
    ensures ListenEntry(head + ":" + NatToString(port), st) == Some(Listen(0, port))
  {
    var n := NatToString(port);
    var line := head + ":" + n;
    assert forall k :: 0 <= k < |n| ==> IsDigit(n[k]);
    assert line[|head|] == ':';
    assert forall k :: 0 <= k < |line| && k != |head| ==> line[k] != ':';
    assert RFindChar(line, ':') == Some(|head|);
    assert FindChar(line, ':', 0) == Some(|head|);
    assert line[|head| + 1..] == n;
    StolOfDecimal(port, []);
    assert n + [] == n;
  }

  /** "<head>:<a.b.c.d>:<port>" listens on that address and port, read from
      the stream over the text after the first ':'. */
  lemma ListenAddressAndPort(head: string, a: nat, b: nat, c: nat, d: nat, port: nat)
    requires ':' !in head && a <= 255 && b <= 255 && c <= 255 && d <= 255 && 1 <= port <= 65535
    ensures var line := head + ":" + Quad(a, b, c, d) + ":" + NatToString(port);
      ListenEntry(line, Open(line[|head| + 1..]))
        == Some(Listen(QuadValue(a, b, c, d), port))
  {
    var q := Quad(a, b, c, d);
    var n := NatToString(port);
    var line := head + ":" + q + ":" + n;
    QuadLacksColon(a, b, c, d);
    DecimalLacks(port, ':');
    TwoColons(head, q, n);
    StolOfDecimal(port, []);
    assert n + [] == n;
    IpTextBeforeColon(q, n);
    IpOfQuad(a, b, c, d);
  }

  lemma QuadLacksColon(a: nat, b: nat, c: nat, d: nat)
    ensures ':' !in Quad(a, b, c, d)
  {
    DecimalLacks(a, ':');
    DecimalLacks(b, ':');
    DecimalLacks(c, ':');
    DecimalLacks(d, ':');
  }

  /** Where the two ':' of "<head>:<mid>:<tail>" are, and what lies after
      them. */
  lemma TwoColons(head: string, mid: string, tail: string)
    requires ':' !in head && ':' !in mid && ':' !in tail
    ensures var line := head + ":" + mid + ":" + tail;
      && FindChar(line, ':', 0) == Some(|head|)
      && RFindChar(line, ':') == Some(|head| + 1 + |mid|)
      && PortText(line) == tail
      && line[|head| + 1..] == mid + [':'] + tail
  {
    var line := head + ":" + mid + ":" + tail;
    var j := |head| + 1 + |mid|;
    assert line[|head|] == ':' && line[j] == ':';
    forall k | j < k < |line|
      ensures line[k] != ':'
    {
      assert line[k] == tail[k - j - 1];
    }
    forall k | 0 <= k < |head|
      ensures line[k] != ':'
    {
      assert line[k] == head[k];
    }
    assert RFindChar(line, ':') == Some(j);
    assert FindChar(line, ':', 0) == Some(|head|);
    assert line[j + 1..] == tail;
  }

  // ---------------------------------------------------------------------
  // Directive values read with operator>>

  /** The words `while (line_stream >> word)` reads, in order. */
  function Words(st: Stream): (r: seq<string>)
    requires st.Valid()
    ensures forall w :: w in r ==> w != [] && forall k :: 0 <= k < |w| ==> !IsSpace(w[k])
    decreases |st.text| - st.pos
  {
    var rd := ExtractWord(st);
    if rd.value.None? then [] else [rd.value.value] + Words(rd.st)
  }

  /** The error_page code loop: the codes read before the stream fails, and
      whether it stopped at a code outside 400..599 (which returns 1). */
  datatype CodeScan = CodeScan(st: Stream, codes: seq<int>, bad: bool)

  function ScanCodes(st: Stream): (r: CodeScan)
    requires st.Valid()
    ensures r.st.Valid() && r.st.text == st.text
    ensures forall c :: c in r.codes ==> 400 <= c <= 599
    ensures !r.bad ==> r.st.fail
    decreases |st.text| - st.pos
  {
    var rd := ExtractInt(st);
    if !rd.st.Ok() then CodeScan(rd.st, [], false)
    else
      var c := rd.value.value;
      if c < 400 || c > 599 then CodeScan(rd.st, [], true)
      else
        var rest := ScanCodes(rd.st);
        CodeScan(rest.st, [c] + rest.codes, rest.bad)
  }

  /** The path of an error_page line: once the code loop has failed the
      stream is cleared and one word is read; "" when there is none. */
  function ErrorPath(st: Stream): string
    requires st.Valid()
  {
    if st.fail then ExtractWord(st.(fail := false, eof := false)).value.GetOr("") else ""
  }

  /** The map with each listed code set to v. */
  function SetCodes(pages: map<int, string>, codes: seq<int>, v: string): (r: map<int, string>)
    ensures r.Keys == pages.Keys + set c | c in codes
    ensures forall k :: k in r ==> r[k] == (if k in codes then v else pages[k])
  {
    map k | k in pages.Keys + (set c | c in codes) :: if k in codes then v else pages[k]
  }

  /** The error_page branch on a map of error pages: 1 and the codes read so
      far set to "" when a code is outside 400..599; otherwise 0, and every
      entry of the map, old or new, points at the line's path. */
  function ErrorPageLine(pages: map<int, string>, st: Stream): (r: (int, map<int, string>))
    requires st.Valid()
    ensures r.0 == 0 || r.0 == 1
    ensures r.0 == 1 <==> ScanCodes(st).bad
    ensures r.1.Keys == pages.Keys + set c | c in ScanCodes(st).codes
    ensures forall k :: k in r.1.Keys - pages.Keys ==> 400 <= k <= 599
    ensures r.0 == 0 ==> forall k :: k in r.1 ==> r.1[k] == ErrorPath(ScanCodes(st).st)
  {
    var scan := ScanCodes(st);
    var blanked := SetCodes(pages, scan.codes, "");
    if scan.bad then (1, blanked)
    else
      var path := ErrorPath(scan.st);
      (0, map k | k in blanked :: path)
  }

  /** The error_page loops of _parseServerData and _parseLocation. */
  method ReadErrorPages(pages: map<int, string>, st: Stream) returns (rc: int, pages': map<int, string>)
    requires st.Valid()
    ensures (rc, pages') == ErrorPageLine(pages, st)
  {
    var bad, blanked, rest := ReadCodes(pages, st);
    if bad {
      return 1, blanked;
    }
    var errorPath := "";
    if rest.fail {
      var w := ExtractWord(rest.(fail := false, eof := false));
      errorPath := w.value.GetOr("");
    }
    pages' := PointAll(blanked, errorPath);
    rc := 0;
  }

  /** The code loop of an error_page line: each code read is set to "",
      until the stream fails or a code lies outside 400..599. */
  method ReadCodes(pages: map<int, string>, st: Stream) returns (bad: bool, pages': map<int, string>, rest: Stream)
    requires st.Valid()
    ensures bad == ScanCodes(st).bad
    ensures pages' == SetCodes(pages, ScanCodes(st).codes, "")
    ensures !bad ==> rest == ScanCodes(st).st
  {
    pages' := pages;
    var s := st;
    ghost var read: seq<int> := [];
    var rd := ExtractInt(s);
    while rd.st.Ok()
      invariant s.Valid() && s.text == st.text
      invariant rd == ExtractInt(s)
      invariant ScanCodes(st) == var r := ScanCodes(s); CodeScan(r.st, read + r.codes, r.bad)
      invariant pages' == SetCodes(pages, read, "")
      decreases |s.text| - s.pos
    {
      var code := rd.value.value;
      if code < 400 || code > 599 {
        assert read + [] == read;
        return true, pages', rd.st;
      }
      SetCodesStep(pages, read, code, "");
      pages' := pages'[code := ""];
      SeqAssoc(read, [code], ScanCodes(rd.st).codes);
      read := read + [code];
      s := rd.st;
      rd := ExtractInt(s);
    }
    assert read + [] == read;
    return false, pages', rd.st;
  }

  lemma SetCodesStep(pages: map<int, string>, codes: seq<int>, c: int, v: string)
    ensures SetCodes(pages, codes, v)[c := v] == SetCodes(pages, codes + [c], v)
  {
    var a := SetCodes(pages, codes, v)[c := v];
    var b := SetCodes(pages, codes + [c], v);
    assert a.Keys == b.Keys;
    forall k | k in a
      ensures a[k] == b[k]
    {
    }
  }

  /** The loop that sets every entry of the map to the path. */
  method PointAll(pages: map<int, string>, path: string) returns (pages': map<int, string>)
    ensures pages' == map k | k in pages :: path
  {
    pages' := pages;
    var keys := pages.Keys;
    while exists k :: k in keys
      invariant keys <= pages.Keys && pages'.Keys == pages.Keys
      invariant forall k :: k in pages' ==> pages'[k] == (if k in keys then pages[k] else path)
      decreases keys
    {
      var k :| k in keys;
      pages' := pages'[k := path];
      keys := keys - {k};
    }
    assert pages'.Keys == (map k | k in pages :: path).Keys;
    assert forall k :: k in pages' ==> pages'[k] == path;
  }

  /** The limit_except loop: each word must name GET, POST or DELETE, and is
      added to the set; an unknown word stops the loop with 1. */
  function MethodList(st: Stream, acc: set<Method>): (r: (int, set<Method>))
    requires st.Valid()
    ensures r.0 == 0 || r.0 == 1
    ensures r.0 == 0 <==> forall w :: w in Words(st) ==> MethodFromName(w).Some?
    ensures r.0 == 0 ==> r.1 == acc + set w | w in Words(st) && MethodFromName(w).Some? :: MethodFromName(w).value
    ensures acc <= r.1 && Undefined !in r.1 - acc
    decreases |st.text| - st.pos
  {
    var rd := ExtractWord(st);
    if rd.value.None? then (0, acc)
    else
      match MethodFromName(rd.value.value)
      case None => (1, acc)
      case Some(m) => MethodList(rd.st, acc + {m})
  }

  /** The limit_except loop of _parseLocation. */
  method ReadMethods(st: Stream) returns (rc: int, methods: set<Method>)
    requires st.Valid()
    ensures (rc, methods) == MethodList(st, {})
  {
    methods := {};
    var s := st;
    var rd := ExtractWord(s);
    while rd.value.Some?
      invariant s.Valid() && rd == ExtractWord(s)
      invariant MethodList(s, methods) == MethodList(st, {})
      decreases |s.text| - s.pos
    {
      var m := MethodFromName(rd.value.value);
      if m.None? {
        return 1, methods;
      }
      methods := methods + {m.value};
      s := rd.st;
      rd := ExtractWord(s);
    }
    rc := 0;
  }

  /** The server_name loop: every word of the line, in order. */
  method ReadWords(st: Stream) returns (words: seq<string>)
    requires st.Valid()
    ensures words == Words(st)
  {
    words := [];
    var s := st;
    var rd := ExtractWord(s);
    while rd.value.Some?
      invariant s.Valid() && rd == ExtractWord(s)
      invariant words + Words(s) == Words(st)
      decreases |s.text| - s.pos
    {
      SeqAssoc(words, [rd.value.value], Words(rd.st));
      words := words + [rd.value.value];
      s := rd.st;
      rd := ExtractWord(s);
    }
    assert words + [] == words;
  }

  // ---------------------------------------------------------------------
  // Lines of a server block

  /** The stream of a directive line: the text after its first ':'. */
  function ValueStream(line: string, d: nat): (st: Stream)
    requires d < |line|
    ensures st.Valid() && st.Good()
  {
    Open(line[d + 1..])
  }

  /** _parseServerData: the result code, the server and the server-level
      defaults after one line of a server block.  Each keyword is looked for
      anywhere in the line, in the order listen, server_name, autoindex (with
      "on" somewhere in the line), index, client_max_body_size, error_page. */
  function ServerLine(server: ServerData, temp: ConfigData, line: string): (r: (int, ServerData, ConfigData))
    ensures r.0 == 0 || r.0 == 1
    ensures FindChar(line, ':', 0).None? ==> r == (1, server, temp)
    ensures r.1.locations == server.locations
    ensures |server.listenGroup| <= |r.1.listenGroup| <= |server.listenGroup| + 1
    ensures r.1.listenGroup[..|server.listenGroup|] == server.listenGroup
    ensures forall i :: |server.listenGroup| <= i < |r.1.listenGroup| ==> ValidListen(r.1.listenGroup[i])
    ensures |server.serverNames| <= |r.1.serverNames| && r.1.serverNames[..|server.serverNames|] == server.serverNames
    ensures temp.errorPages.Keys <= r.2.errorPages.Keys
    ensures forall k :: k in r.2.errorPages.Keys - temp.errorPages.Keys ==> 400 <= k <= 599
    ensures r.2.autoindex == temp.autoindex || r.2.autoindex == 1
  {
    var d := FindChar(line, ':', 0);
    if d.None? then (1, server, temp)
    else
      var st := ValueStream(line, d.value);
      if Contains(line, "listen:") then
        var e := ListenEntry(line, st);
        if e.None? then (1, server, temp)
        else (0, server.(listenGroup := server.listenGroup + [e.value]), temp)
      else if Contains(line, "server_name:") then
        (0, server.(serverNames := server.serverNames + Words(st)), temp)
      else
        var e := DefaultsLine(temp, line, st);
        (e.0, server, e.1)
  }

  /** The keywords of a server block line that set the defaults its
      locations inherit: autoindex, index, client_max_body_size and
      error_page. */
  function DefaultsLine(temp: ConfigData, line: string, st: Stream): (r: (int, ConfigData))
    requires st.Valid()
    ensures r.0 == 0 || r.0 == 1
    ensures temp.errorPages.Keys <= r.1.errorPages.Keys
    ensures forall k :: k in r.1.errorPages.Keys - temp.errorPages.Keys ==> 400 <= k <= 599
    ensures r.1.autoindex == temp.autoindex || r.1.autoindex == 1
  {
    if Contains(line, "autoindex:") && Contains(line, "on") then
      AutoindexHasIndex(line);
      (0, temp.(autoindex := 1))
    else if Contains(line, "index:") then
      (0, temp.(indexPage := ExtractWord(st).value.GetOr(temp.indexPage)))
    else if Contains(line, "client_max_body_size:") then
      (0, temp.(clientMaxBodySize := ExtractSize(st).value.GetOr(temp.clientMaxBodySize)))
    else if Contains(line, "error_page:") then
      var e := ErrorPageLine(temp.errorPages, st);
      (e.0, temp.(errorPages := e.1))
    else (1, temp)
  }

  /** A line that names "autoindex:" also names "index:". */
  lemma AutoindexHasIndex(line: string)
    ensures Contains(line, "autoindex:") ==> Contains(line, "index:")
  {
    if Contains(line, "autoindex:") {
      var i :| 0 <= i <= |line| && OccursAt(line, "autoindex:", i);
      assert line[i + 4..i + 10] == "autoindex:"[4..];
      assert OccursAt(line, "index:", i + 4);
    }
  }

  /** In a server block an autoindex line without "on" is read by the index
      branch: its first word becomes the server's index page. */
  lemma AutoindexOffSetsIndexPage(server: ServerData, temp: ConfigData, line: string, d: nat)
    requires FindChar(line, ':', 0) == Some(d)
    requires Contains(line, "autoindex:") && !Contains(line, "on")
    requires !Contains(line, "listen:") && !Contains(line, "server_name:")
    ensures ServerLine(server, temp, line)
      == (0, server, temp.(indexPage := ExtractWord(ValueStream(line, d)).value.GetOr(temp.indexPage)))
  {
    AutoindexHasIndex(line);
  }

  /** _parseServerData, on values. */
  method ParseServerData(server: ServerData, temp: ConfigData, line: string)
    returns (rc: int, server': ServerData, temp': ConfigData)
    ensures (rc, server', temp') == ServerLine(server, temp, line)
  {
    server', temp' := server, temp;
    var delimiter := FindChar(line, ':', 0);
    if delimiter.None? {
      return 1, server, temp;
    }
    var st := ValueStream(line, delimiter.value);
    if Contains(line, "listen:") {
      rc, server' := ParseListenGroup(server, st, line);
    } else if Contains(line, "server_name:") {
      var names := ReadWords(st);
      server' := server.(serverNames := server.serverNames + names);
      rc := 0;
    } else if Contains(line, "autoindex:") && Contains(line, "on") {
      temp' := temp.(autoindex := 1);
      rc := 0;
    } else if Contains(line, "index:") {
      var w := ExtractWord(st);
      temp' := temp.(indexPage := w.value.GetOr(temp.indexPage));
      rc := 0;
    } else if Contains(line, "client_max_body_size:") {
      var n := ExtractSize(st);
      temp' := temp.(clientMaxBodySize := n.value.GetOr(temp.clientMaxBodySize));
      rc := 0;
    } else if Contains(line, "error_page:") {
      var pages;
      rc, pages := ReadErrorPages(temp.errorPages, st);
      temp' := temp.(errorPages := pages);
    } else {
      rc := 1;
    }
  }

  // ---------------------------------------------------------------------
  // Lines of a location block

  /** _parseLocation: the result code and the location after one line of a
      location block, keywords looked for in the order root, autoindex,
      index, client_max_body_size, error_page, rewrite, limit_except. */
  function LocationLine(location: Location, line: string): (r: (int, Location))
    ensures r.0 == 0 || r.0 == 1
    ensures FindChar(line, ':', 0).None? ==> r == (1, location)
    ensures r.1.path == location.path
    ensures location.errorPages.Keys <= r.1.errorPages.Keys
    ensures forall k :: k in r.1.errorPages.Keys - location.errorPages.Keys ==> 400 <= k <= 599
    ensures Undefined in r.1.allowedMethods ==> Undefined in location.allowedMethods
    ensures r.1.autoindex == location.autoindex || r.1.autoindex == 0 || r.1.autoindex == 1
    ensures FindChar(line, ':', 0).Some? && Contains(line, "autoindex:") && !Contains(line, "root:") ==>
      r == (0, location.(autoindex := if Contains(line, "on") then 1 else 0))
  {
    var d := FindChar(line, ':', 0);
    if d.None? then (1, location)
    else
      var st := ValueStream(line, d.value);
      if Contains(line, "root:") then
        (0, location.(root := ExtractWord(st).value.GetOr(location.root)))
      else if Contains(line, "autoindex:") then
        (0, location.(autoindex := if Contains(line, "on") then 1 else 0))
      else if Contains(line, "index:") then
        (0, location.(indexPage := ExtractWord(st).value.GetOr(location.indexPage)))
      else if Contains(line, "client_max_body_size:") then
        (0, location.(clientMaxBodySize := ExtractSize(st).value.GetOr(location.clientMaxBodySize)))
      else if Contains(line, "error_page:") then
        var e := ErrorPageLine(location.errorPages, st);
        (e.0, location.(errorPages := e.1))
      else if Contains(line, "rewrite:") then
        var code := ExtractInt(st);
        var path := ExtractWord(code.st);
        (0, location.(redirectCode := code.value.GetOr(location.redirectCode),
                      redirectPath := path.value.GetOr(location.redirectPath)))
      else if Contains(line, "limit_except:") then
        var m := MethodList(st, {});
        (m.0, location.(allowedMethods := m.1))
      else (1, location)
  }

  /** _parseLocation, on values. */
  method ParseLocation(location: Location, line: string) returns (rc: int, location': Location)
    ensures (rc, location') == LocationLine(location, line)
  {
    location' := location;
    var delimiter := FindChar(line, ':', 0);
    if delimiter.None? {
      return 1, location;
    }
    var st := ValueStream(line, delimiter.value);
    rc := 0;
    if Contains(line, "root:") {
      var w := ExtractWord(st);
      location' := location.(root := w.value.GetOr(location.root));
    } else if Contains(line, "autoindex:") {
      if Contains(line, "on") {
        location' := location.(autoindex := 1);
      } else {
        location' := location.(autoindex := 0);
      }
    } else if Contains(line, "index:") {
      var w := ExtractWord(st);
      location' := location.(indexPage := w.value.GetOr(location.indexPage));
    } else if Contains(line, "client_max_body_size:") {
      var n := ExtractSize(st);
      location' := location.(clientMaxBodySize := n.value.GetOr(location.clientMaxBodySize));
    } else if Contains(line, "error_page:") {
      var pages;
      rc, pages := ReadErrorPages(location.errorPages, st);
      location' := location.(errorPages := pages);
    } else if Contains(line, "rewrite:") {
      var code := ExtractInt(st);
      var path := ExtractWord(code.st);
      location' := location.(redirectCode := code.value.GetOr(location.redirectCode),
                             redirectPath := path.value.GetOr(location.redirectPath));
    } else if Contains(line, "limit_except:") {
      var methods;
      rc, methods := ReadMethods(st);
      location' := location.(allowedMethods := methods);
    } else {
      rc := 1;
    }
  }

  // ---------------------------------------------------------------------
  // logging_level:

  /** The name the levels map gives each level. */
  function LevelName(l: Level): (name: string)
    ensures name != [] && forall k :: 0 <= k < |name| ==> !IsSpace(name[k])
  {
    match l
    case Debug => "DEBUG"
    case Info => "INFO"
    case Warning => "WARNING"
    case Error => "ERROR"
    case Silence => "SILENCE"
  }

  /** levels_map.find: the level a word names, if any. */
  function LevelFromName(name: string): (r: Option<Level>)
    ensures r.Some? ==> LevelName(r.value) == name
    ensures r.None? ==> forall l: Level :: LevelName(l) != name
  {
    if name == "DEBUG" then Some(Debug)
    else if name == "INFO" then Some(Info)
    else if name == "WARNING" then Some(Warning)
    else if name == "ERROR" then Some(Error)
    else if name == "SILENCE" then Some(Silence)
    else None
  }

  /** The prefix up to the last character that is neither ' ' nor '\t',
      or the whole text when it has none (find_last_not_of is npos). */
  function TrimBack(s: string): (r: string)
    ensures r == s || (|r| < |s| && r == s[..|r|] && r != [] && r[|r| - 1] != ' ' && r[|r| - 1] != '\t')
    decreases |s|
  {
    if s == [] then s
    else if s[|s| - 1] != ' ' && s[|s| - 1] != '\t' then s
    else
      var t := TrimBack(s[..|s| - 1]);
      if t == s[..|s| - 1] && (t == [] || t[|t| - 1] == ' ' || t[|t| - 1] == '\t') then s else t
  }

  /** A word read with operator>> has nothing to trim. */
  lemma TrimBackOfWord(w: string)
    requires forall k :: 0 <= k < |w| ==> !IsSpace(w[k])
    ensures TrimBack(w) == w
  {
    if w != [] {
      assert !IsSpace(w[|w| - 1]);
    }
  }

  /** _parseLoggingLevel: the level the first word after ':' names, or
      None where it returns 1 (no ':' or an unknown word). */
  function LoggingLevel(line: string): (r: Option<Level>)
    ensures FindChar(line, ':', 0).None? ==> r.None?
    ensures r.Some? ==> exists d :: FindChar(line, ':', 0) == Some(d) && ExtractWord(ValueStream(line, d)).value == Some(LevelName(r.value))
  {
    var d := FindChar(line, ':', 0);
    if d.None? then None
    else
      var w := ExtractWord(ValueStream(line, d.value));
      var word := if w.value.Some? then w.value.value else "";
      TrimBackOfWord(word);
      LevelFromName(TrimBack(word))
  }

  /** _parseLoggingLevel, returning the code and the logger's new level. */
  method ParseLoggingLevel(line: string, level: Level) returns (rc: int, level': Level)
    ensures rc == 0 || rc == 1
    ensures rc == 1 <==> LoggingLevel(line).None?
    ensures level' == LoggingLevel(line).GetOr(level)
  {
    var delimiter := FindChar(line, ':', 0);
    if delimiter.None? {
      return 1, level;
    }
    var rd := ExtractWord(ValueStream(line, delimiter.value));
    var word := rd.value.GetOr("");
    var l := LevelFromName(TrimBack(word));
    if l.None? {
      return 1, level;
    }
    return 0, l.value;
  }

  /** "logging_level: NAME" sets the level NAME names. */
  lemma LoggingLevelOfName(l: Level)
    ensures LoggingLevel("logging_level: " + LevelName(l)) == Some(l)
  {
    var head := "logging_level: ";
    var line := head + LevelName(l);
    assert forall k :: 0 <= k < 13 ==> line[k] == head[k] && head[k] != ':';
    assert line[13] == ':';
    assert FindChar(line, ':', 0) == Some(13);
    assert line[14..] == " " + LevelName(l);
    LoggingLevelOfWord(line, 13, LevelName(l));
    LevelNameRoundTrip(l);
  }

  lemma LevelNameRoundTrip(l: Level)
    ensures LevelFromName(LevelName(l)) == Some(l)
  {
  }

  /** A line whose first ':' is followed by one blank and a word. */
  lemma LoggingLevelOfWord(line: string, d: nat, w: string)
    requires FindChar(line, ':', 0) == Some(d)
    requires w != [] && forall k :: 0 <= k < |w| ==> !IsSpace(w[k])
    requires line[d + 1..] == " " + w
    ensures LoggingLevel(line) == LevelFromName(w)
  {
    assert ValueStream(line, d) == Open(" " + w);
    WordAfterBlank(w);
    TrimBackOfWord(w);
  }

  /** operator>> on a blank and then one word reads that word. */
  lemma WordAfterBlank(w: string)
    requires w != [] && forall k :: 0 <= k < |w| ==> !IsSpace(w[k])
    ensures ExtractWord(Open(" " + w)).value == Some(w)
  {
    var t := " " + w;
    assert !IsSpace(t[1]) by { assert t[1] == w[0]; }
    assert SkipSpaces(t, 0) == 1;
    assert forall k :: 1 <= k < |t| ==> !IsSpace(t[k]) by {
      forall k | 1 <= k < |t| ensures !IsSpace(t[k]) { assert t[k] == w[k - 1]; }
    }
    assert WordEnd(t, 1) == |t|;
    assert t[1..|t|] == w;
    var st := Open(t);
    assert st.Good() && st.text == t && st.pos == 0;
    assert ExtractWord(st) == Read(st.(pos := |t|, eof := true), Some(t[1..|t|]));
  }

  // ---------------------------------------------------------------------
  // Server defaults

  /** _checkParamsPriority on one location: an unset autoindex (-1), an
      unset body size (SIZE_MAX) and an empty index page take the server's
      value, and the server's error pages fill in codes the location lacks. */
  function Inherit(loc: Location, temp: ConfigData): (r: Location)
    ensures r == loc.(autoindex := r.autoindex, clientMaxBodySize := r.clientMaxBodySize,
                      indexPage := r.indexPage, errorPages := r.errorPages)
    ensures loc.autoindex != -1 ==> r.autoindex == loc.autoindex
    ensures loc.clientMaxBodySize != SIZE_MAX ==> r.clientMaxBodySize == loc.clientMaxBodySize
    ensures loc.indexPage != [] ==> r.indexPage == loc.indexPage
    ensures r.errorPages.Keys == loc.errorPages.Keys + temp.errorPages.Keys
    ensures forall k :: k in loc.errorPages ==> r.errorPages[k] == loc.errorPages[k]
  {
    loc.(autoindex := if loc.autoindex == -1 then temp.autoindex else loc.autoindex,
         clientMaxBodySize := if loc.clientMaxBodySize == SIZE_MAX then temp.clientMaxBodySize else loc.clientMaxBodySize,
         indexPage := if loc.indexPage == [] then temp.indexPage else loc.indexPage,
         errorPages := temp.errorPages + loc.errorPages)
  }

  /** What an unset value becomes: the server's. */
  lemma InheritFillsUnset(loc: Location, temp: ConfigData)
    ensures loc.autoindex == -1 ==> Inherit(loc, temp).autoindex == temp.autoindex
    ensures loc.clientMaxBodySize == SIZE_MAX ==> Inherit(loc, temp).clientMaxBodySize == temp.clientMaxBodySize
    ensures loc.indexPage == [] ==> Inherit(loc, temp).indexPage == temp.indexPage
    ensures forall k :: k in temp.errorPages && k !in loc.errorPages ==> Inherit(loc, temp).errorPages[k] == temp.errorPages[k]
  {
  }

  /** A second pass with the same defaults changes nothing. */
  lemma InheritIdempotent(loc: Location, temp: ConfigData)
    ensures Inherit(Inherit(loc, temp), temp) == Inherit(loc, temp)
  {
    var once := Inherit(loc, temp);
    var twice := Inherit(once, temp);
    assert twice.errorPages == once.errorPages;
  }

  /** The server with every location given the server's defaults. */
  function Inherited(server: ServerData, temp: ConfigData): (r: ServerData)
    ensures r.listenGroup == server.listenGroup && r.serverNames == server.serverNames
    ensures |r.locations| == |server.locations|
    ensures forall i :: 0 <= i < |r.locations| ==> r.locations[i] == Inherit(server.locations[i], temp)
  {
    server.(locations := seq(|server.locations|, i requires 0 <= i < |server.locations| => Inherit(server.locations[i], temp)))
  }

  /** The error-page loop of _checkParamsPriority: each server code the
      location lacks is copied in. */
  method MergeErrorPages(own: map<int, string>, defaults: map<int, string>) returns (pages: map<int, string>)
    ensures pages == defaults + own
  {
    pages := own;
    var codes := defaults.Keys;
    while exists c :: c in codes
      invariant codes <= defaults.Keys
      invariant pages.Keys == own.Keys + (defaults.Keys - codes)
      invariant forall c :: c in pages ==> pages[c] == if c in own then own[c] else defaults[c]
      decreases codes
    {
      var c :| c in codes;
      if c !in pages {
        pages := pages[c := defaults[c]];
      }
      codes := codes - {c};
    }
    assert pages.Keys == (defaults + own).Keys;
    assert forall c :: c in pages ==> pages[c] == (defaults + own)[c];
  }

  /** _checkParamsPriority. */
  method CheckParamsPriority(server: ServerData, temp: ConfigData) returns (server': ServerData)
    ensures server' == Inherited(server, temp)
  {
    var locations := server.locations;
    var i := 0;
    while i < |locations|
      invariant 0 <= i <= |locations| && |locations| == |server.locations|
      invariant forall j :: 0 <= j < i ==> locations[j] == Inherit(server.locations[j], temp)
      invariant forall j :: i <= j < |locations| ==> locations[j] == server.locations[j]
    {
      var loc := locations[i];
      if loc.autoindex == -1 {
        loc := loc.(autoindex := temp.autoindex);
      }
      if loc.clientMaxBodySize == SIZE_MAX {
        loc := loc.(clientMaxBodySize := temp.clientMaxBodySize);
      }
      if loc.indexPage == [] {
        loc := loc.(indexPage := temp.indexPage);
      }
      var pages := MergeErrorPages(loc.errorPages, temp.errorPages);
      loc := loc.(errorPages := pages);
      locations := locations[i := loc];
      i := i + 1;
    }
    server' := server.(locations := locations);
    assert server'.locations == Inherited(server, temp).locations;
  }

  // ---------------------------------------------------------------------
  // Ordering of locations

  /** Longer paths first. */
  predicate LongestFirst(locs: seq<Location>)
  {
    forall i, j :: 0 <= i < j < |locs| ==> |locs[i].path| >= |locs[j].path|
  }

  /** Insertion of one location into a LongestFirst run, after every
      location whose path is at least as long. */
  function InsertByLength(x: Location, locs: seq<Location>): (r: seq<Location>)
    requires LongestFirst(locs)
    ensures LongestFirst(r) && multiset(r) == multiset(locs) + multiset{x}
  {
    if locs == [] then [x]
    else if |locs[0].path| < |x.path| then [x] + locs
    else
      var rest := InsertByLength(x, locs[1..]);
      InsertBehindHead(x, locs, rest);
      [locs[0]] + rest
  }

  /** The head of the run stays in front of the insertion into its tail. */
  lemma InsertBehindHead(x: Location, locs: seq<Location>, rest: seq<Location>)
    requires locs != [] && LongestFirst(locs) && |x.path| <= |locs[0].path|
    requires LongestFirst(rest) && multiset(rest) == multiset(locs[1..]) + multiset{x}
    ensures LongestFirst([locs[0]] + rest)
    ensures multiset([locs[0]] + rest) == multiset(locs) + multiset{x}
  {
    assert locs == [locs[0]] + locs[1..];
    forall k | 0 <= k < |rest|
      ensures |rest[k].path| <= |locs[0].path|
    {
      assert rest[k] in multiset(rest);
      if rest[k] != x {
        assert rest[k] in locs[1..];
      }
    }
  }

  /** The order std::sort leaves with the comparator a.path.size() >
      b.path.size(): longest path first, holding the same locations. */
  function SortByPathLength(locs: seq<Location>): (r: seq<Location>)
    ensures LongestFirst(r) && multiset(r) == multiset(locs)
    decreases |locs|
  {
    if locs == [] then []
    else
      assert locs == [locs[0]] + locs[1..];
      InsertByLength(locs[0], SortByPathLength(locs[1..]))
  }

  /** _sortLocationByPath: every server's locations, longest path first. */
  function SortLocations(servers: seq<ServerData>): (r: seq<ServerData>)
    ensures |r| == |servers|
    ensures forall i :: 0 <= i < |r| ==>
      r[i] == servers[i].(locations := SortByPathLength(servers[i].locations))
  {
    seq(|servers|, i requires 0 <= i < |servers| => servers[i].(locations := SortByPathLength(servers[i].locations)))
  }

  // ---------------------------------------------------------------------
  // The line loop of _parseConfigFile

  datatype Status = Start | InServer | InLocation

  /** The loop's variables, and the two members it changes: the servers
      pushed so far and the logger level. */
  datatype ParseState = ParseState(
    status: Status,
    server: ServerData,
    location: Location,
    temp: ConfigData,
    serverIndent: int,
    locationIndent: int,
    servers: seq<ServerData>,
    level: Level)

  /** A line either lets the loop go on or makes the parser return 1. */
  datatype Outcome = Next(ps: ParseState) | Stop(ps: ParseState)

  /** The state before the first line.  server_indentation is read
      uninitialised when a location block comes before any server: line; the
      value it happens to hold is the parameter garbage. */
  function Initial(level: Level, garbage: int): ParseState
  {
    ParseState(Start, EmptyServer, DefaultLocation, DefaultConfigData, garbage, 0, [], level)
  }

  /** The line cut at its first '#'. */
  function StripComment(line: string): (r: string)
    ensures |r| <= |line| && '#' !in r && r == line[..|r|]
    ensures '#' !in line ==> r == line
  {
    match FindChar(line, '#', 0)
    case Some(k) => line[..k]
    case None => line
  }

  /** The current location, when it has a path, moved into the server. */
  function FlushLocation(ps: ParseState): (r: ParseState)
    ensures r == ps.(server := r.server, location := r.location)
  {
    if ps.location.path != [] then
      ps.(server := ps.server.(locations := ps.server.locations + [ps.location]), location := DefaultLocation)
    else ps
  }

  /** line.substr(d1, d2 - d1) with size_t arithmetic: when the ':' comes
      before the '/' the count wraps around and the rest of the line is
      taken. */
  function LocationPath(line: string, d1: nat, d2: nat): (r: string)
    requires d1 < |line| && d2 < |line| && line[d1] == '/'
    ensures d1 < d2 ==> r == line[d1..d2]
    ensures d2 < d1 ==> r == line[d1..]
    ensures d1 != d2 ==> FrontIs(r, '/')
  {
    if d1 <= d2 then line[d1..d2] else line[d1..]
  }

  /** The outcome of a directive parser's result code. */
  function Continue(rc: int, ps: ParseState): (o: Outcome)
    ensures o.ps == ps && (o.Stop? <==> rc == 1)
  {
    if rc == 1 then Stop(ps) else Next(ps)
  }

  /** A line given to _parseServerData. */
  function ServerStep(ps: ParseState, line: string): (o: Outcome)
  {
    var r := ServerLine(ps.server, ps.temp, line);
    Continue(r.0, ps.(server := r.1, temp := r.2))
  }

  /** A line given to _parseLocation. */
  function LocationStep(ps: ParseState, line: string): (o: Outcome)
  {
    var r := LocationLine(ps.location, line);
    Continue(r.0, ps.(location := r.1))
  }

  /** A "server:" line: the current location goes into the current server,
      which (unless none has begun) needs a listen line and is pushed with
      its defaults applied. */
  function ServerKeyword(ps: ParseState): (o: Outcome)
  {
    var ps1 := FlushLocation(ps);
    if ps1.status != Start && ps1.server.listenGroup == [] then Stop(ps1)
    else
      var ps2 := if ps1.status == Start then ps1
        else ps1.(servers := ps1.servers + [Inherited(ps1.server, ps1.temp)],
                  server := EmptyServer, temp := DefaultConfigData);
      Next(ps2.(status := InServer, serverIndent := 0))
  }

  /** A line naming "location": a new location whose path runs from the
      first '/' to the first ':'. */
  function LocationKeyword(ps: ParseState, line: string): (o: Outcome)
  {
    var ps1 := FlushLocation(ps);
    var d1 := FindChar(line, '/', 0);
    var d2 := FindChar(line, ':', 0);
    if d1.None? || d2.None? then Stop(ps1)
    else
      Next(ps1.(location := ps1.location.(path := LocationPath(line, d1.value, d2.value)),
                status := InLocation, locationIndent := 0))
  }

  /** Any other line inside a server block: the first one fixes the
      block's indentation, and every later one must match it. */
  function ServerBody(ps: ParseState, line: string, indent: nat): (o: Outcome)
  {
    if ps.serverIndent == 0 then ServerStep(ps.(serverIndent := indent), line)
    else if indent != ps.serverIndent then Stop(ps)
    else ServerStep(ps, line)
  }

  /** Any other line inside a location block: at the block's indentation it
      is a location directive; at the server's it closes the location and
      is a server directive. */
  function LocationBody(ps: ParseState, line: string, indent: nat): (o: Outcome)
  {
    var ps1 := if ps.locationIndent == 0 then ps.(locationIndent := indent) else ps;
    if indent == ps1.locationIndent then LocationStep(ps1, line)
    else if indent == ps1.serverIndent then
      ServerStep(ps1.(server := ps1.server.(locations := ps1.server.locations + [ps1.location]),
                      location := DefaultLocation, status := InServer), line)
    else Stop(ps1)
  }

  /** One iteration of the getline loop. */
  function Step(ps: ParseState, raw: string): (o: Outcome)
  {
    var line := StripComment(raw);
    if FirstNotBlank(line, 0).None? then Next(ps)
    else if Contains(line, "logging_level:") then
      var l := LoggingLevel(line);
      if l.None? then Stop(ps) else Next(ps.(level := l.value))
    else if Contains(line, "server:") then ServerKeyword(ps)
    else if Contains(line, "location") then LocationKeyword(ps, line)
    else if ps.status == InServer then ServerBody(ps, line, Indentation(line))
    else if ps.status == InLocation then LocationBody(ps, line, Indentation(line))
    else Next(ps)
  }

  /** What _parseConfigFile returns and what it leaves in _servers and in
      the logger's level. */
  datatype ConfigResult = ConfigResult(rc: int, servers: seq<ServerData>, level: Level)

  /** After the last line: the open location and then the open server
      (which needs a listen line) are pushed, and every server's locations
      are ordered by path length. */
  function Finish(ps: ParseState): (r: ConfigResult)
    ensures r.rc == 0 || r.rc == 1
    ensures r.level == ps.level
  {
    var server := if ps.status == InLocation
      then ps.server.(locations := ps.server.locations + [ps.location]) else ps.server;
    if server.listenGroup == [] then ConfigResult(1, ps.servers, ps.level)
    else ConfigResult(0, SortLocations(ps.servers + [Inherited(server, ps.temp)]), ps.level)
  }

  /** The loop over the remaining lines. */
  function Run(ps: ParseState, lines: seq<string>): (r: ConfigResult)
    ensures r.rc == 0 || r.rc == 1
    decreases |lines|
  {
    if lines == [] then Finish(ps)
    else
      var o := Step(ps, lines[0]);
      if o.Stop? then ConfigResult(1, o.ps.servers, o.ps.level) else Run(o.ps, lines[1..])
  }

  /** _parseConfigFile on a file's text (None: the file cannot be opened),
      from a logger at level and with _servers empty. */
  function ConfigSpec(content: Option<string>, level: Level, garbage: int): (r: ConfigResult)
    ensures r.rc == 0 || r.rc == 1
    ensures content.None? ==> r == ConfigResult(1, [], level)
  {
    if content.None? then ConfigResult(1, [], level)
    else Run(Initial(level, garbage), Tokens(Open(content.value), '\n'))
  }

  /** The body of the getline loop for one line. */
  method ProcessLine(ps: ParseState, raw: string) returns (o: Outcome)
    ensures o == Step(ps, raw)
  {
    var line := StripComment(raw);
    if FirstNotBlank(line, 0).None? {
      return Next(ps);
    }
    var indent := GetIndentation(line);
    if Contains(line, "logging_level:") {
      var rc, level := ParseLoggingLevel(line, ps.level);
      if rc == 1 {
        return Stop(ps);
      }
      return Next(ps.(level := level));
    } else if Contains(line, "server:") {
      o := ServerLineReached(ps);
    } else if Contains(line, "location") {
      o := LocationLineReached(ps, line);
    } else if ps.status == InServer {
      o := ServerBlockLine(ps, line, indent);
    } else if ps.status == InLocation {
      o := LocationBlockLine(ps, line, indent);
    } else {
      o := Next(ps);
    }
  }

  /** The "server:" branch. */
  method ServerLineReached(ps: ParseState) returns (o: Outcome)
    ensures o == ServerKeyword(ps)
  {
    var p := ps;
    if p.location.path != [] {
      p := p.(server := p.server.(locations := p.server.locations + [p.location]), location := DefaultLocation);
    }
    if p.status != Start {
      if p.server.listenGroup == [] {
        return Stop(p);
      }
      var done := CheckParamsPriority(p.server, p.temp);
      p := p.(servers := p.servers + [done], server := EmptyServer, temp := DefaultConfigData);
    }
    return Next(p.(status := InServer, serverIndent := 0));
  }

  /** The "location" branch. */
  method LocationLineReached(ps: ParseState, line: string) returns (o: Outcome)
    ensures o == LocationKeyword(ps, line)
  {
    var p := ps;
    if p.location.path != [] {
      p := p.(server := p.server.(locations := p.server.locations + [p.location]), location := DefaultLocation);
    }
    var delimiter1 := FindChar(line, '/', 0);
    var delimiter2 := FindChar(line, ':', 0);
    if delimiter1.None? || delimiter2.None? {
      return Stop(p);
    }
    var path := LocationPath(line, delimiter1.value, delimiter2.value);
    return Next(p.(location := p.location.(path := path), status := InLocation, locationIndent := 0));
  }

  /** A directive line of a server block. */
  method ServerBlockLine(ps: ParseState, line: string, indent: nat) returns (o: Outcome)
    ensures o == ServerBody(ps, line, indent)
  {
    var p := ps;
    if p.serverIndent == 0 {
      p := p.(serverIndent := indent);
    } else if indent != p.serverIndent {
      return Stop(p);
    }
    var rc, server, temp := ParseServerData(p.server, p.temp, line);
    return Continue(rc, p.(server := server, temp := temp));
  }

  /** A directive line of a location block. */
  method LocationBlockLine(ps: ParseState, line: string, indent: nat) returns (o: Outcome)
    ensures o == LocationBody(ps, line, indent)
  {
    var p := ps;
    if p.locationIndent == 0 {
      p := p.(locationIndent := indent);
    }
    if indent == p.locationIndent {
      var rc, location := ParseLocation(p.location, line);
      return Continue(rc, p.(location := location));
    } else if indent == p.serverIndent {
      p := p.(server := p.server.(locations := p.server.locations + [p.location]),
              location := DefaultLocation, status := InServer);
      var rc, server, temp := ParseServerData(p.server, p.temp, line);
      return Continue(rc, p.(server := server, temp := temp));
    }
    return Stop(p);
  }

  /** What follows the getline loop. */
  method FinishParse(ps: ParseState) returns (r: ConfigResult)
    ensures r == Finish(ps)
  {
    var server := ps.server;
    if ps.status == InLocation {
      server := server.(locations := server.locations + [ps.location]);
    }
    if server.listenGroup == [] {
      return ConfigResult(1, ps.servers, ps.level);
    }
    server := CheckParamsPriority(server, ps.temp);
    r := ConfigResult(0, SortLocations(ps.servers + [server]), ps.level);
  }

  /** _parseConfigFile: the getline loop over the file's lines. */
  method ParseConfigFile(content: Option<string>, level: Level, garbage: int) returns (r: ConfigResult)
    ensures r == ConfigSpec(content, level, garbage)
  {
    if content.None? {
      return ConfigResult(1, [], level);
    }
    var text := content.value;
    var ps := Initial(level, garbage);
    var st := Open(text);
    var rd := GetLine(st, '\n');
    while rd.st.Ok()
      invariant st.Valid() && st.text == text
      invariant rd == GetLine(st, '\n')
      invariant Run(ps, Tokens(st, '\n')) == ConfigSpec(content, level, garbage)
      decreases |text| - st.pos
    {
      TokensStep(st, '\n');
      RunStep(ps, rd.value.value, Tokens(rd.st, '\n'));
      var o := ProcessLine(ps, rd.value.value);
      if o.Stop? {
        return ConfigResult(1, o.ps.servers, o.ps.level);
      }
      ps := o.ps;
      st := rd.st;
      rd := GetLine(st, '\n');
    }
    assert Tokens(st, '\n') == [];
    r := FinishParse(ps);
  }

  /** Run on a line and the lines after it. */
  lemma RunStep(ps: ParseState, line: string, rest: seq<string>)
    ensures Run(ps, [line] + rest)
      == (var o := Step(ps, line); if o.Stop? then ConfigResult(1, o.ps.servers, o.ps.level) else Run(o.ps, rest))
  {
    assert ([line] + rest)[0] == line && ([line] + rest)[1..] == rest;
  }

  // ---------------------------------------------------------------------
  // What the parser guarantees about the servers it pushes

  /** Every error code lies in 400..599. */
  predicate CodesInRange(pages: map<int, string>)
  {
    forall k :: k in pages ==> 400 <= k <= 599
  }

  /** A location as its block leaves it: valid codes, only real methods, and
      autoindex on, off or unset. */
  predicate OpenLocation(loc: Location)
  {
    CodesInRange(loc.errorPages) && Undefined !in loc.allowedMethods && -1 <= loc.autoindex <= 1
  }

  /** A location as a pushed server holds it: its path starts with '/', and
      autoindex is on or off. */
  predicate SettledLocation(loc: Location)
  {
    CodesInRange(loc.errorPages) && Undefined !in loc.allowedMethods && 0 <= loc.autoindex <= 1
      && FrontIs(loc.path, '/')
  }

  /** A pushed server: at least one listen pair, each valid, and settled
      locations. */
  predicate ServerReady(s: ServerData)
  {
    && s.listenGroup != []
    && (forall l :: l in s.listenGroup ==> ValidListen(l))
    && (forall loc :: loc in s.locations ==> SettledLocation(loc))
  }

  /** The server block being read. */
  predicate OpenServer(s: ServerData)
  {
    && (forall l :: l in s.listenGroup ==> ValidListen(l))
    && (forall loc :: loc in s.locations ==> OpenLocation(loc) && FrontIs(loc.path, '/'))
  }

  /** Server-level defaults: valid codes, autoindex on or off. */
  predicate SettledDefaults(temp: ConfigData)
  {
    CodesInRange(temp.errorPages) && 0 <= temp.autoindex <= 1
  }

  /** What holds of the loop's state before and after every line. */
  predicate Inv(ps: ParseState)
  {
    StateParts(ps) && (ps.status == InLocation ==> ps.location.path != [])
  }

  /** Inv, except for the link between the status and the location. */
  predicate StateParts(ps: ParseState)
  {
    && SettledDefaults(ps.temp)
    && OpenLocation(ps.location)
    && (ps.location.path != [] ==> FrontIs(ps.location.path, '/'))
    && OpenServer(ps.server)
    && (forall s :: s in ps.servers ==> ServerReady(s))
  }

  /** After a line: the state's parts hold, and all of Inv when the loop
      goes on. */
  predicate Kept(o: Outcome)
  {
    StateParts(o.ps) && (o.Next? ==> Inv(o.ps))
  }

  lemma {:induction false} InitialInv(level: Level, garbage: int)
    ensures Inv(Initial(level, garbage))
  {
    assert DefaultLocation.allowedMethods == {Get, Post, Delete};
  }

  /** A completed location with the server's defaults is settled. */
  lemma InheritSettles(loc: Location, temp: ConfigData)
    requires OpenLocation(loc) && FrontIs(loc.path, '/') && SettledDefaults(temp)
    ensures SettledLocation(Inherit(loc, temp))
  {
  }

  lemma InheritedReady(server: ServerData, temp: ConfigData)
    requires OpenServer(server) && server.listenGroup != [] && SettledDefaults(temp)
    ensures ServerReady(Inherited(server, temp))
  {
    var r := Inherited(server, temp);
    forall loc | loc in r.locations
      ensures SettledLocation(loc)
    {
      var i :| 0 <= i < |r.locations| && r.locations[i] == loc;
      InheritSettles(server.locations[i], temp);
    }
  }

  lemma AddLocationOpen(server: ServerData, loc: Location)
    requires OpenServer(server) && OpenLocation(loc) && FrontIs(loc.path, '/')
    ensures OpenServer(server.(locations := server.locations + [loc]))
  {
  }

  lemma FlushLocationInv(ps: ParseState)
    requires Inv(ps)
    ensures StateParts(FlushLocation(ps))
  {
    if ps.location.path != [] {
      AddLocationOpen(ps.server, ps.location);
    }
  }

  lemma ServerLineOpen(server: ServerData, temp: ConfigData, line: string)
    requires OpenServer(server) && SettledDefaults(temp)
    ensures OpenServer(ServerLine(server, temp, line).1) && SettledDefaults(ServerLine(server, temp, line).2)
  {
    var r := ServerLine(server, temp, line);
    forall l | l in r.1.listenGroup
      ensures ValidListen(l)
    {
      var i :| 0 <= i < |r.1.listenGroup| && r.1.listenGroup[i] == l;
      if i < |server.listenGroup| {
        assert l == r.1.listenGroup[..|server.listenGroup|][i];
      }
    }
  }

  lemma ServerStepInv(ps: ParseState, line: string)
    requires Inv(ps)
    ensures Kept(ServerStep(ps, line))
  {
    ServerLineOpen(ps.server, ps.temp, line);
  }

  lemma LocationStepInv(ps: ParseState, line: string)
    requires Inv(ps) && ps.location.path != []
    ensures Kept(LocationStep(ps, line))
  {
    LocationLineOpen(ps.location, line);
  }

  lemma LocationLineOpen(loc: Location, line: string)
    requires OpenLocation(loc)
    ensures OpenLocation(LocationLine(loc, line).1) && LocationLine(loc, line).1.path == loc.path
  {
    var r := LocationLine(loc, line);
    assert CodesInRange(r.1.errorPages);
  }

  lemma ServerKeywordInv(ps: ParseState)
    requires Inv(ps)
    ensures Kept(ServerKeyword(ps))
  {
    FlushLocationInv(ps);
    var ps1 := FlushLocation(ps);
    if ps1.status != Start && ps1.server.listenGroup != [] {
      InheritedReady(ps1.server, ps1.temp);
    }
  }

  lemma LocationKeywordInv(ps: ParseState, line: string)
    requires Inv(ps)
    ensures Kept(LocationKeyword(ps, line))
  {
    FlushLocationInv(ps);
  }

  lemma ServerBodyInv(ps: ParseState, line: string, indent: nat)
    requires Inv(ps)
    ensures Kept(ServerBody(ps, line, indent))
  {
    ServerStepInv(ps, line);
    ServerStepInv(ps.(serverIndent := indent), line);
  }

  lemma LocationBodyInv(ps: ParseState, line: string, indent: nat)
    requires Inv(ps) && ps.status == InLocation
    ensures Kept(LocationBody(ps, line, indent))
  {
    var ps1 := if ps.locationIndent == 0 then ps.(locationIndent := indent) else ps;
    if indent == ps1.locationIndent {
      LocationStepInv(ps1, line);
    } else if indent == ps1.serverIndent {
      AddLocationOpen(ps1.server, ps1.location);
      ServerStepInv(ps1.(server := ps1.server.(locations := ps1.server.locations + [ps1.location]),
                         location := DefaultLocation, status := InServer), line);
    }
  }

  /** Every line keeps the invariant, whether the loop goes on or stops. */
  lemma StepInv(ps: ParseState, raw: string)
    requires Inv(ps)
    ensures Kept(Step(ps, raw))
  {
    var line := StripComment(raw);
    if FirstNotBlank(line, 0).None? || Contains(line, "logging_level:") {
    } else if Contains(line, "server:") {
      ServerKeywordInv(ps);
    } else if Contains(line, "location") {
      LocationKeywordInv(ps, line);
    } else if ps.status == InServer {
      ServerBodyInv(ps, line, Indentation(line));
    } else if ps.status == InLocation {
      LocationBodyInv(ps, line, Indentation(line));
    }
  }

  /** Sorting a server's locations keeps them settled. */
  lemma SortKeepsReady(servers: seq<ServerData>)
    requires forall s :: s in servers ==> ServerReady(s)
    ensures forall s :: s in SortLocations(servers) ==> ServerReady(s) && LongestFirst(s.locations)
  {
    var r := SortLocations(servers);
    forall s | s in r
      ensures ServerReady(s) && LongestFirst(s.locations)
    {
      var i :| 0 <= i < |r| && r[i] == s;
      var locs := servers[i].locations;
      assert servers[i] in servers;
      forall loc | loc in s.locations
        ensures SettledLocation(loc)
      {
        assert loc in multiset(SortByPathLength(locs));
        assert loc in multiset(locs);
      }
    }
  }

  lemma FinishReady(ps: ParseState)
    requires Inv(ps)
    ensures forall s :: s in Finish(ps).servers ==> ServerReady(s)
    ensures Finish(ps).rc == 0 ==> forall s :: s in Finish(ps).servers ==> LongestFirst(s.locations)
  {
    var server := if ps.status == InLocation
      then ps.server.(locations := ps.server.locations + [ps.location]) else ps.server;
    if ps.status == InLocation {
      AddLocationOpen(ps.server, ps.location);
    }
    if server.listenGroup != [] {
      InheritedReady(server, ps.temp);
      SortKeepsReady(ps.servers + [Inherited(server, ps.temp)]);
    }
  }

  lemma {:induction false} RunReady(ps: ParseState, lines: seq<string>)
    requires Inv(ps)
    ensures forall s :: s in Run(ps, lines).servers ==> ServerReady(s)
    ensures Run(ps, lines).rc == 0 ==> forall s :: s in Run(ps, lines).servers ==> LongestFirst(s.locations)
    decreases |lines|
  {
    if lines == [] {
      FinishReady(ps);
    } else {
      StepInv(ps, lines[0]);
      var o := Step(ps, lines[0]);
      if o.Next? {
        RunReady(o.ps, lines[1..]);
      }
    }
  }

  /** Whatever the file holds, and whether or not parsing succeeds, every
      server left in _servers has a listen pair, valid listen pairs, and
      locations whose paths start with '/', whose error codes lie in
      400..599, whose methods are real ones and whose autoindex is on or
      off; after a successful parse each server's locations are ordered
      longest path first. */
  lemma ConfigServersReady(content: Option<string>, level: Level, garbage: int)
    ensures forall s :: s in ConfigSpec(content, level, garbage).servers ==> ServerReady(s)
    ensures ConfigSpec(content, level, garbage).rc == 0 ==>
      forall s :: s in ConfigSpec(content, level, garbage).servers ==> LongestFirst(s.locations)
  {
    if content.Some? {
      InitialInv(level, garbage);
      RunReady(Initial(level, garbage), Tokens(Open(content.value), '\n'));
    }
  }

  /** A successful parse leaves at least one server. */
  lemma {:induction false} RunSuccessHasServer(ps: ParseState, lines: seq<string>)
    ensures Run(ps, lines).rc == 0 ==> |Run(ps, lines).servers| > |ps.servers|
    decreases |lines|
  {
    if lines != [] {
      var o := Step(ps, lines[0]);
      if o.Next? {
        RunSuccessHasServer(o.ps, lines[1..]);
        StepKeepsServers(ps, lines[0]);
      }
    }
  }

  /** A line never removes a pushed server. */
  lemma StepKeepsServers(ps: ParseState, raw: string)
    ensures |ps.servers| <= |Step(ps, raw).ps.servers|
  {
  }

  /** An empty file makes the parser return 1. */
  lemma EmptyFileFails(level: Level, garbage: int)
    ensures ConfigSpec(Some(""), level, garbage) == ConfigResult(1, [], level)
  {
    assert Tokens(Open(""), '\n') == [];
  }

  /** A blank line, or one whose first non-blank character starts a
      comment, changes nothing. */
  lemma CommentLineSkipped(ps: ParseState, blanks: string, comment: string)
    requires Blanks(blanks)
    ensures Step(ps, blanks + "#" + comment) == Next(ps)
  {
    var line := blanks + "#" + comment;
    assert forall k :: 0 <= k < |blanks| ==> line[k] == blanks[k] && line[k] != '#';
    assert line[|blanks|] == '#';
    assert FindChar(line, '#', 0) == Some(|blanks|);
    assert StripComment(line) == blanks;
  }
}
