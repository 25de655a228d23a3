/** Host names as bytes: ASCII lower case, labels, and what the gateway accepts as a name. */
module Hostnames {
  import opened Bytes

  const DOT: Byte := 46
  const HYPHEN: Byte := 45
  const COLON: Byte := 58

  function LowerByte(b: Byte): (r: Byte) {
    if 65 <= b <= 90 then b + 32 else b
  }

  function Lower(s: seq<Byte>): (r: seq<Byte>)
    ensures |r| == |s|
  {
    seq(|s|, i requires 0 <= i < |s| => LowerByte(s[i]))
  }

  /** The pieces between separators; one more than there are separators. */
  function Split(s: seq<Byte>, sep: Byte): (r: seq<seq<Byte>>)
    ensures |r| >= 1
  {
    if s == [] then [[]]
    else
      var r := Split(s[1..], sep);
      if s[0] == sep then [[]] + r else [[s[0]] + r[0]] + r[1..]
  }

  /** Pieces with the separator between them. */
  function Joined(pieces: seq<seq<Byte>>, sep: Byte): (r: seq<Byte>) {
    if pieces == [] then []
    else if |pieces| == 1 then pieces[0]
    else pieces[0] + [sep] + Joined(pieces[1..], sep)
  }

  lemma JoinedFirst(b: Byte, pieces: seq<seq<Byte>>, sep: Byte)
    requires pieces != []
    ensures Joined([[b] + pieces[0]] + pieces[1..], sep) == [b] + Joined(pieces, sep)
  {
    var longer := [[b] + pieces[0]] + pieces[1..];
    assert longer[1..] == pieces[1..];
  }

  /** The pieces join to the text, and none holds a separator. */
  lemma {:induction false} SplitJoins(s: seq<Byte>, sep: Byte)
    ensures Joined(Split(s, sep), sep) == s
    ensures forall i :: 0 <= i < |Split(s, sep)| ==> sep !in Split(s, sep)[i]
  {
    if s != [] {
      var r := Split(s[1..], sep);
      SplitJoins(s[1..], sep);
      if s[0] == sep {
        assert ([[]] + r)[1..] == r;
      } else {
        JoinedFirst(s[0], r, sep);
      }
    }
  }

  /** One is the other's capital or small letter, or they are the same. */
  predicate SameLetter(a: Byte, b: Byte) {
    a == b || ('A' as int <= a <= 'Z' as int && b - a == 'a' as int - 'A' as int)
    || ('A' as int <= b <= 'Z' as int && a - b == 'a' as int - 'A' as int)
  }

  predicate SameLetters(a: seq<Byte>, b: seq<Byte>) {
    |a| == |b| && forall i :: 0 <= i < |a| ==> SameLetter(a[i], b[i])
  }

  /** Equal in lower case is equal but for the case of letters. */
  lemma LowerIff(a: seq<Byte>, b: seq<Byte>)
    ensures Lower(a) == Lower(b) <==> SameLetters(a, b)
  {
    if Lower(a) == Lower(b) {
      assert |Lower(a)| == |Lower(b)|;
      forall i | 0 <= i < |a| ensures SameLetter(a[i], b[i]) { assert Lower(a)[i] == Lower(b)[i]; }
    }
  }

  predicate IsAlnum(b: Byte) {
    48 <= b <= 57 || 65 <= b <= 90 || 97 <= b <= 122
  }

  predicate IsLabel(s: seq<Byte>) {
    && 0 < |s| <= 63 && s[0] != HYPHEN && s[|s| - 1] != HYPHEN
    && forall i :: 0 <= i < |s| ==> IsAlnum(s[i]) || s[i] == HYPHEN
  }

  /** A domain name, or the part of one below an apex: both are checked alike. */
  predicate IsHostname(s: seq<Byte>) {
    && 0 < |s| <= 253 && s[0] != DOT && s[|s| - 1] != DOT
    && forall i :: 0 <= i < |Split(s, DOT)| ==> IsLabel(Split(s, DOT)[i])
  }

  /** A label by the letter of section 2.1 of RFC 1123: letters, digits and hyphens, no hyphen at either end. */
  predicate LabelText(s: seq<Byte>) {
    && 1 <= |s| <= 63 && s[0] != '-' as int && s[|s| - 1] != '-' as int
    && forall i :: 0 <= i < |s| ==>
      'a' as int <= s[i] <= 'z' as int || 'A' as int <= s[i] <= 'Z' as int || '0' as int <= s[i] <= '9' as int
      || s[i] == '-' as int
  }

  lemma {:induction false} NoSeparator(s: seq<Byte>, sep: Byte)
    requires sep !in s
    ensures Split(s, sep) == [s]
  {
    if s != [] {
      NoSeparator(s[1..], sep);
      assert [s[0]] + s[1..] == s;
    }
  }

  lemma {:induction false} SplitAtFirst(a: seq<Byte>, sep: Byte, t: seq<Byte>)
    requires sep !in a
    ensures Split(a + [sep] + t, sep) == [a] + Split(t, sep)
  {
    var s := a + [sep] + t;
    if a == [] {
      assert s == [sep] + t;
      assert s[1..] == t;
    } else {
      SplitAtFirst(a[1..], sep, t);
      assert s[1..] == a[1..] + [sep] + t;
      assert [a[0]] + a[1..] == a;
      assert ([a[1..]] + Split(t, sep))[1..] == Split(t, sep);
    }
  }

  /** Joining and splitting are each other's inverse. */
  lemma {:induction false} SplitOfJoined(pieces: seq<seq<Byte>>, sep: Byte)
    requires pieces != [] && forall i :: 0 <= i < |pieces| ==> sep !in pieces[i]
    ensures Split(Joined(pieces, sep), sep) == pieces
  {
    if |pieces| == 1 {
      NoSeparator(pieces[0], sep);
    } else {
      SplitOfJoined(pieces[1..], sep);
      SplitAtFirst(pieces[0], sep, Joined(pieces[1..], sep));
      assert [pieces[0]] + pieces[1..] == pieces;
    }
  }

  ghost predicate DottedLabels(s: seq<Byte>, labels: seq<seq<Byte>>) {
    labels != [] && s == Joined(labels, '.' as int) && forall i :: 0 <= i < |labels| ==> LabelText(labels[i])
  }

  lemma LabelEnds(labels: seq<seq<Byte>>, sep: Byte)
    requires labels != [] && forall i :: 0 <= i < |labels| ==> labels[i] != [] && sep !in labels[i]
    ensures var s := Joined(labels, sep); s != [] && s[0] != sep && s[|s| - 1] != sep
  {
    if |labels| == 1 {
      assert labels[0][0] in labels[0] && labels[0][|labels[0]| - 1] in labels[0];
    } else {
      LabelEnds(labels[1..], sep);
      assert labels[0][0] in labels[0];
    }
  }

  lemma LabelsAreHostname(s: seq<Byte>, labels: seq<seq<Byte>>)
    requires |s| <= 253 && DottedLabels(s, labels)
    ensures IsHostname(s)
  {
    assert forall i :: 0 <= i < |labels| ==> LabelText(labels[i]) && DOT !in labels[i];
    SplitOfJoined(labels, DOT);
    LabelEnds(labels, DOT);
  }

  /** A host name is at most 253 characters of labels with dots between them. */
  lemma HostnameIff(s: seq<Byte>)
    ensures IsHostname(s) <==> |s| <= 253 && exists labels :: DottedLabels(s, labels)
  {
    SplitJoins(s, DOT);
    if IsHostname(s) {
      forall i | 0 <= i < |Split(s, DOT)| ensures LabelText(Split(s, DOT)[i]) { assert IsLabel(Split(s, DOT)[i]); }
      assert DottedLabels(s, Split(s, DOT));
    }
    if labels :| |s| <= 253 && DottedLabels(s, labels) {
      LabelsAreHostname(s, labels);
    }
  }

  /** Everything up to the first colon. */
  function WithoutPort(host: seq<Byte>): (r: seq<Byte>) {
    if host == [] || host[0] == COLON then [] else [host[0]] + WithoutPort(host[1..])
  }
}
