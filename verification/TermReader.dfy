/**
 The terminal reader of phase4/phase4.c: it collects characters into a line and sends the line off
 when a newline arrives or the line is full.
 */
module TermReader {
  const MAXLINE := 80

  ghost function Joined(lines: seq<seq<char>>): seq<char> {
    if lines == [] then [] else lines[0] + Joined(lines[1..])
  }

  lemma {:induction false} JoinedAppend(lines: seq<seq<char>>, l: seq<char>)
    ensures Joined(lines + [l]) == Joined(lines) + l
    decreases |lines|
  {
    if lines == [] {
      assert lines + [l] == [l];
      assert [l][1..] == [];
    } else {
      JoinedAppend(lines[1..], l);
      assert (lines + [l])[1..] == lines[1..] + [l];
    }
  }

  /** A line that is complete: it ends in its only newline, or it is full and has none before its end. */
  ghost predicate Complete(l: seq<char>) {
    && 1 <= |l| <= MAXLINE
    && (l[|l| - 1] == '\n' || |l| == MAXLINE)
    && forall i :: 0 <= i < |l| - 1 ==> l[i] != '\n'
  }

  ghost predicate Partial(l: seq<char>) {
    |l| < MAXLINE && '\n' !in l
  }

  /** `lines` and a rest cut the stream where the reader has to cut it. */
  ghost predicate Cuts(stream: seq<char>, lines: seq<seq<char>>, rest: seq<char>) {
    && Joined(lines) + rest == stream
    && (forall l :: l in lines ==> Complete(l))
    && Partial(rest)
  }

  /** Nothing received is lost, repeated or reordered. */
  method Read(stream: seq<char>) returns (sent: seq<seq<char>>, rest: seq<char>)
    ensures Cuts(stream, sent, rest)
  {
    var line := new char[MAXLINE](_ => '\0');
    var next := 0;
    sent := [];
    for k := 0 to |stream|
      invariant 0 <= next < MAXLINE
      invariant Joined(sent) + line[..next] == stream[..k]
      invariant forall l :: l in sent ==> Complete(l)
      invariant '\n' !in line[..next]
    {
      var ch := stream[k];
      assert stream[..k + 1] == stream[..k] + [ch];
      line[next] := ch;
      next := next + 1;
      assert line[..next] == line[..next - 1] + [ch];
      if ch == '\n' || next == MAXLINE {
        JoinedAppend(sent, line[..next]);
        sent := sent + [line[..next]];
        for i := 0 to MAXLINE {
          line[i] := '\0';
        }
        next := 0;
      }
    }
    assert stream[..|stream|] == stream;
    rest := line[..next];
  }

  /** A partial line does not begin with a complete one. */
  lemma NotPartial(rest: seq<char>, l: seq<char>, tail: seq<char>)
    requires Partial(rest) && Complete(l)
    ensures rest != l + tail
  {
    assert (l + tail)[|l| - 1] == l[|l| - 1];
  }

  lemma NotLonger(l: seq<char>, s: seq<char>, m: seq<char>, t: seq<char>)
    requires Complete(l) && Complete(m) && l + s == m + t && |l| <= |m|
    ensures |l| == |m|
  {
    assert (l + s)[|l| - 1] == l[|l| - 1];
    assert (m + t)[|l| - 1] == m[|l| - 1];
  }

  lemma SameFirst(l: seq<char>, s: seq<char>, m: seq<char>, t: seq<char>)
    requires Complete(l) && Complete(m) && l + s == m + t
    ensures l == m && s == t
  {
    if |l| <= |m| { NotLonger(l, s, m, t); } else { NotLonger(m, t, l, s); }
    assert l == (l + s)[..|l|] && m == (m + t)[..|m|];
    assert s == (l + s)[|l|..] && t == (m + t)[|m|..];
  }

  /** There is only one way to cut a stream. */
  lemma {:induction false} CutsAreUnique(stream: seq<char>, a: seq<seq<char>>, ra: seq<char>,
                                         b: seq<seq<char>>, rb: seq<char>)
    requires Cuts(stream, a, ra) && Cuts(stream, b, rb)
    ensures a == b && ra == rb
    decreases |a|
  {
    assert a == [] ==> ra == stream;
    assert b == [] ==> rb == stream;
    if a != [] {
      var ta := Joined(a[1..]) + ra;
      assert stream == a[0] + ta;
      if b == [] {
        NotPartial(rb, a[0], ta);
      } else {
        var tb := Joined(b[1..]) + rb;
        assert stream == b[0] + tb;
        SameFirst(a[0], ta, b[0], tb);
        CutsAreUnique(ta, a[1..], ra, b[1..], rb);
      }
    } else if b != [] {
      assert stream == b[0] + (Joined(b[1..]) + rb);
      NotPartial(ra, b[0], Joined(b[1..]) + rb);
    }
  }
}
