/** std::istringstream over a string, with the three reading operations the
    server uses: std::getline, operator>> into a std::string, and operator>>
    into an int or a size_t.  The stream keeps its read position and its eof
    and fail bits.  Every operation first builds a sentry: on a stream that is
    not good (eof or fail already set) it only sets fail and leaves its target
    untouched, which is why a read result carries an Option. */
module Streams {
  import opened Wrappers
  import opened Strings

  datatype Stream = Stream(text: string, pos: nat, eof: bool, fail: bool)
  {
    predicate Valid()
    {
      pos <= |text|
    }

    /** The stream converts to true (operator bool is !fail()). */
    predicate Ok()
    {
      !fail
    }

    predicate Good()
    {
      !eof && !fail
    }
  }

  /** std::istringstream s(text). */
  function Open(text: string): (st: Stream)
    ensures st.Valid() && st.Good() && st.text == text && st.pos == 0
  {
    Stream(text, 0, false, false)
  }

  /** The stream after a read, and the value stored in the target (None:
      the target was not assigned). */
  datatype Read<T> = Read(st: Stream, value: Option<T>)

  /** std::getline(st, line, delim): the characters up to the next delim (which
      is consumed and not stored), or up to the end of the text, where eof is
      set; when nothing is left, or the stream was not good, fail is set. */
  function GetLine(st: Stream, delim: char): (r: Read<string>)
    requires st.Valid()
    ensures r.st.Valid() && r.st.text == st.text && st.pos <= r.st.pos
    ensures r.st.Ok() ==> st.Good() && st.pos < r.st.pos && r.value.Some?
    ensures r.st.Ok() ==> delim !in r.value.value
    ensures r.st.Ok() ==>
      st.text[st.pos..r.st.pos] == r.value.value + (if r.st.eof then [] else [delim])
    ensures r.st.Ok() && r.st.eof ==> r.st.pos == |st.text|
    ensures !r.st.Ok() ==> r.st.pos == st.pos && (st.Ok() ==> r.st.eof)
    ensures !r.st.Ok() && st.Good() ==> st.pos == |st.text| && r.value == Some("")
    ensures !st.Good() ==> r.value == None
  {
    if !st.Good() then Read(st.(fail := true), None)
    else if st.pos == |st.text| then Read(st.(eof := true, fail := true), Some(""))
    else
      match FindChar(st.text, delim, st.pos)
      case Some(k) =>
        assert st.text[st.pos..k + 1] == st.text[st.pos..k] + [delim];
        Read(st.(pos := k + 1), Some(st.text[st.pos..k]))
      case None => Read(st.(pos := |st.text|, eof := true), Some(st.text[st.pos..]))
  }

  /** The index of the first white-space character at or after i, or |s|. */
  function WordEnd(s: string, i: nat): (j: nat)
    requires i <= |s|
    ensures i <= j <= |s|
    ensures forall k :: i <= k < j ==> !IsSpace(s[k])
    ensures j < |s| ==> IsSpace(s[j])
    decreases |s| - i
  {
    if i == |s| || IsSpace(s[i]) then i else WordEnd(s, i + 1)
  }

  /** operator>>(st, word): skips white space, then reads up to the next
      white space; when only white space is left the sentry fails. */
  function ExtractWord(st: Stream): (r: Read<string>)
    requires st.Valid()
    ensures r.st.Valid() && r.st.text == st.text && st.pos <= r.st.pos
    ensures r.st.Ok() <==> r.value.Some?
    ensures r.value.Some? ==> r.value.value != [] && (forall k :: 0 <= k < |r.value.value| ==> !IsSpace(r.value.value[k]))
    ensures r.value.Some? ==> st.pos < r.st.pos
  {
    if !st.Good() then Read(st.(fail := true), None)
    else
      var i := SkipSpaces(st.text, st.pos);
      if i == |st.text| then Read(st.(pos := i, eof := true, fail := true), None)
      else
        var j := WordEnd(st.text, i);
        Read(st.(pos := j, eof := j == |st.text|), Some(st.text[i..j]))
  }

  const INT_MIN: int := -INT_MAX - 1

  /** operator>>(st, n) for an int: white space, an optional sign and the digits
      that follow are consumed; no digit stores 0 and a value outside the int
      range stores the nearest bound, both with fail set. */
  function ExtractInt(st: Stream): (r: Read<int>)
    requires st.Valid()
    ensures r.st.Valid() && r.st.text == st.text && st.pos <= r.st.pos
    ensures r.st.Ok() ==> r.value.Some? && st.pos < r.st.pos
    ensures r.value.Some? ==> INT_MIN <= r.value.value <= INT_MAX
  {
    if !st.Good() then Read(st.(fail := true), None)
    else
      var i := SkipSpaces(st.text, st.pos);
      if i == |st.text| then Read(st.(pos := i, eof := true, fail := true), None)
      else
        var sc := ScanInteger(st.text, st.pos);
        var eofHit := sc.end == |st.text|;
        if sc.start == sc.end then Read(st.(pos := sc.end, eof := eofHit, fail := true), Some(0))
        else
          var m: int := ScanMagnitude(st.text, sc);
          var v := if sc.negative then -m else m;
          if v > INT_MAX then Read(st.(pos := sc.end, eof := eofHit, fail := true), Some(INT_MAX))
          else if v < INT_MIN then Read(st.(pos := sc.end, eof := eofHit, fail := true), Some(INT_MIN))
          else Read(st.(pos := sc.end, eof := eofHit), Some(v))
  }

  /** operator>>(st, n) for a size_t: as for an int, except that a '-' value is
      negated modulo 2^64 and a value beyond 2^64 - 1 stores SIZE_MAX. */
  function ExtractSize(st: Stream): (r: Read<nat>)
    requires st.Valid()
    ensures r.st.Valid() && r.st.text == st.text && st.pos <= r.st.pos
    ensures r.st.Ok() ==> r.value.Some? && st.pos < r.st.pos
    ensures r.value.Some? ==> r.value.value <= ULLONG_MAX
  {
    if !st.Good() then Read(st.(fail := true), None)
    else
      var i := SkipSpaces(st.text, st.pos);
      if i == |st.text| then Read(st.(pos := i, eof := true, fail := true), None)
      else
        var sc := ScanInteger(st.text, st.pos);
        var eofHit := sc.end == |st.text|;
        if sc.start == sc.end then Read(st.(pos := sc.end, eof := eofHit, fail := true), Some(0))
        else
          var m := ScanMagnitude(st.text, sc);
          if m > ULLONG_MAX then Read(st.(pos := sc.end, eof := eofHit, fail := true), Some(ULLONG_MAX))
          else if sc.negative && m > 0 then Read(st.(pos := sc.end, eof := eofHit), Some(ULLONG_MAX + 1 - m))
          else Read(st.(pos := sc.end, eof := eofHit), Some(m))
  }

  // ---------------------------------------------------------------------
  // What a `while (std::getline(st, piece, delim))` loop sees.

  /** The pieces successive getline calls produce until the first failure. */
  function Tokens(st: Stream, delim: char): seq<string>
    requires st.Valid()
    decreases |st.text| - st.pos
  {
    var r := GetLine(st, delim);
    if !r.st.Ok() then [] else [r.value.value] + Tokens(r.st, delim)
  }

  /** Each piece followed by the delimiter, all concatenated. */
  function Terminated(ts: seq<string>, delim: char): string
  {
    if ts == [] then [] else ts[0] + [delim] + Terminated(ts[1..], delim)
  }

  /** The pieces hold no delimiter. */
  lemma {:induction false} TokensWithoutDelim(st: Stream, delim: char)
    requires st.Valid()
    ensures forall t :: t in Tokens(st, delim) ==> delim !in t
    decreases |st.text| - st.pos
  {
    var r := GetLine(st, delim);
    if r.st.Ok() {
      TokensWithoutDelim(r.st, delim);
    }
  }

  /** Putting the delimiter back after each piece rebuilds the unread
      text, with a delimiter added at its end when it did not already end
      with one. */
  lemma {:induction false} TokensRebuildText(st: Stream, delim: char)
    requires st.Valid() && st.Good()
    ensures Rebuilds(st, delim)
    decreases |st.text| - st.pos
  {
    var r := GetLine(st, delim);
    if r.st.Ok() {
      if r.st.eof {
        LastTokenRebuilds(st, delim);
      } else {
        TokensRebuildText(r.st, delim);
        TokenStepRebuilds(st, delim);
      }
    }
  }

  /** The property TokensRebuildText states of a stream. */
  predicate Rebuilds(st: Stream, delim: char)
    requires st.Valid()
  {
    var rest := st.text[st.pos..];
    Terminated(Tokens(st, delim), delim)
      == rest + (if rest == [] || rest[|rest| - 1] == delim then [] else [delim])
  }

  lemma LastTokenRebuilds(st: Stream, delim: char)
    requires st.Valid() && st.Good()
    requires GetLine(st, delim).st.Ok() && GetLine(st, delim).st.eof
    ensures Rebuilds(st, delim)
  {
    var r := GetLine(st, delim);
    var rest := st.text[st.pos..];
    var t := r.value.value;
    assert Tokens(r.st, delim) == [];
    assert rest == t;
    assert rest != [] && rest[|rest| - 1] != delim by {
      assert rest[|rest| - 1] in t;
    }
  }

  lemma TokenStepRebuilds(st: Stream, delim: char)
    requires st.Valid() && st.Good()
    requires GetLine(st, delim).st.Ok() && !GetLine(st, delim).st.eof
    requires Rebuilds(GetLine(st, delim).st, delim)
    ensures Rebuilds(st, delim)
  {
    var r := GetLine(st, delim);
    var t := r.value.value;
    var rest := st.text[st.pos..];
    var ts := Tokens(r.st, delim);
    var rest2 := st.text[r.st.pos..];
    assert Tokens(st, delim) == [t] + ts;
    assert ([t] + ts)[1..] == ts;
    assert Terminated([t] + ts, delim) == t + [delim] + Terminated(ts, delim);
    assert rest == st.text[st.pos..r.st.pos] + rest2;
    if rest2 != [] {
      assert rest[|rest| - 1] == rest2[|rest2| - 1];
    }
  }

  /** getline on text that continues with line and then the delimiter
      returns line and resumes just past the delimiter. */
  lemma GetLineUpTo(st: Stream, delim: char, line: string)
    requires st.Valid() && st.Good()
    requires delim !in line && StartsWith(st.text[st.pos..], line + [delim])
    ensures GetLine(st, delim) == Read(st.(pos := st.pos + |line| + 1), Some(line))
  {
    var rest := st.text[st.pos..];
    assert rest[..|line| + 1] == line + [delim];
    assert st.text[st.pos + |line|] == rest[|line|] == delim;
    forall i | st.pos <= i < st.pos + |line|
      ensures st.text[i] != delim
    {
      assert st.text[i] == rest[i - st.pos] == line[i - st.pos];
    }
    assert FindChar(st.text, delim, st.pos) == Some(st.pos + |line|);
    assert rest[..|line|] == line;
    assert st.text[st.pos..st.pos + |line|] == rest[..|line|];
  }

  /** getline on a fresh stream over line, the delimiter and rest returns
      line and leaves rest unread. */
  lemma GetFirstLine(line: string, delim: char, rest: string)
    requires delim !in line
    ensures var st := Open(line + [delim] + rest).(pos := |line| + 1);
      && st.Valid()
      && GetLine(Open(line + [delim] + rest), delim) == Read(st, Some(line))
      && st.text[st.pos..] == rest
  {
    var text := line + [delim] + rest;
    assert text[..|line| + 1] == line + [delim];
    GetLineUpTo(Open(text), delim, line);
    assert text[|line| + 1..] == rest;
  }

  /** getline on text that holds no delimiter returns all of it and sets
      eof, whether or not anything is left. */
  lemma GetLineToEnd(st: Stream, delim: char)
    requires st.Valid() && st.Good() && delim !in st.text[st.pos..]
    ensures GetLine(st, delim).value == Some(st.text[st.pos..])
    ensures GetLine(st, delim).st.eof
  {
    forall i | st.pos <= i < |st.text|
      ensures st.text[i] != delim
    {
      assert st.text[i] == st.text[st.pos..][i - st.pos];
    }
    assert st.pos == |st.text| ==> st.text[st.pos..] == "";
    assert FindChar(st.text, delim, st.pos).None?;
  }

  /** getline on text that holds the delimiter does not reach the end. */
  lemma GetLineStopsAtDelimiter(st: Stream, delim: char)
    requires st.Valid() && st.Good() && delim in st.text[st.pos..]
    ensures GetLine(st, delim).st.Ok() && !GetLine(st, delim).st.eof
  {
    var rest := st.text[st.pos..];
    var k :| 0 <= k < |rest| && rest[k] == delim;
    assert st.text[st.pos + k] == delim;
  }
}
