/**
 * The anchor text file of anchors.py (`_write_to_file`): every centroid is written
 * as "w,h " in order, after the file has been truncated. The parser below is the
 * reading side the format is meant for: split on spaces, then on commas.
 */
module AnchorFile {
  import opened Wrappers
  import opened AnchorMetric

  /** An open text file positioned at its start; `content` is what it holds. */
  class TextFile {
    var content: string

    constructor (initial: string)
      ensures content == initial
    {
      content := initial;
    }

    /** `f.truncate()` at position 0: earlier content is discarded. */
    method Truncate()
      modifies this
      ensures content == ""
    {
      content := "";
    }

    /** `f.write(s)`: appends at the current (end) position. */
    method Write(s: string)
      modifies this
      ensures content == old(content) + s
    {
      content := content + s;
    }
  }

  function DigitChar(d: nat): char
    requires d < 10
  {
    "0123456789"[d]
  }

  predicate IsDigit(c: char) {
    '0' <= c <= '9'
  }

  /** Decimal digits of a natural number, most significant first. */
  function NatToString(n: nat): (s: string)
    ensures |s| > 0 && forall k :: 0 <= k < |s| ==> IsDigit(s[k])
    decreases n
  {
    if n < 10 then [DigitChar(n)] else NatToString(n / 10) + [DigitChar(n % 10)]
  }

  /** Default decimal formatting of an integer, with a leading '-' when negative. */
  function IntToString(n: int): string {
    if n < 0 then "-" + NatToString(-n) else NatToString(n)
  }

  /** `"{0},{1} ".format(w, h)` for one centroid. */
  function Entry(c: Box): string {
    IntToString(c.w) + "," + IntToString(c.h) + " "
  }

  /** The whole file content for a list of centroids. */
  function Serialize(cs: seq<Box>): string {
    if |cs| == 0 then "" else Entry(cs[0]) + Serialize(cs[1..])
  }

  lemma {:induction false} SerializeSnoc(cs: seq<Box>, c: Box)
    ensures Serialize(cs + [c]) == Serialize(cs) + Entry(c)
  {
    if |cs| > 0 {
      assert (cs + [c])[1..] == cs[1..] + [c];
      SerializeSnoc(cs[1..], c);
    }
  }

  /** Writing one more entry extends the serialised prefix by that entry. */
  lemma SerializePrefix(cs: seq<Box>, i: nat)
    requires i < |cs|
    ensures Serialize(cs[..i + 1]) == Serialize(cs[..i]) + Entry(cs[i])
  {
    assert cs[..i + 1] == cs[..i] + [cs[i]];
    SerializeSnoc(cs[..i], cs[i]);
  }

  /**
   * `_write_to_file`: truncate the file, then write one entry per centroid in order.
   * Whatever the file held before is gone.
   */
  method WriteAnchors(f: TextFile, centroids: seq<Box>)
    modifies f
    ensures f.content == Serialize(centroids)
  {
    f.Truncate();
    for i := 0 to |centroids|
      invariant f.content == Serialize(centroids[..i])
    {
      SerializePrefix(centroids, i);
      f.Write(Entry(centroids[i]));
    }
    assert centroids[..|centroids|] == centroids;
  }

  // ---------------------------------------------------------------------------
  // Reading the format back

  /** Python's `s.split(sep)`: the pieces between separators, empty pieces kept. */
  function SplitOn(s: string, sep: char): (parts: seq<string>)
    ensures |parts| > 0
  {
    if |s| == 0 then [""]
    else if s[0] == sep then [""] + SplitOn(s[1..], sep)
    else var rest := SplitOn(s[1..], sep); [[s[0]] + rest[0]] + rest[1..]
  }

  lemma {:induction false} SplitOnNoSep(a: string, sep: char)
    requires sep !in a
    ensures SplitOn(a, sep) == [a]
  {
    if |a| > 0 {
      SplitOnNoSep(a[1..], sep);
      assert [a[0]] + a[1..] == a;
    }
  }

  lemma {:induction false} SplitOnFirst(a: string, sep: char, b: string)
    requires sep !in a
    ensures SplitOn(a + [sep] + b, sep) == [a] + SplitOn(b, sep)
  {
    if |a| == 0 {
      assert a + [sep] + b == [sep] + b;
      assert ([sep] + b)[1..] == b;
    } else {
      var s := a + [sep] + b;
      assert s[1..] == a[1..] + [sep] + b;
      SplitOnFirst(a[1..], sep, b);
      assert [a[0]] + a[1..] == a;
    }
  }

  function DigitValue(c: char): nat
    requires IsDigit(c)
  {
    (c as int - '0' as int) as nat
  }

  /** The value of a string of decimal digits. */
  function ParseDigits(s: string): nat
    requires forall k :: 0 <= k < |s| ==> IsDigit(s[k])
  {
    if |s| == 0 then 0 else ParseDigits(s[..|s| - 1]) * 10 + DigitValue(s[|s| - 1])
  }

  /** Python's `int(s)` on the strings this format produces; `None` for anything else. */
  function ParseInt(s: string): Option<int> {
    if |s| > 0 && s[0] == '-' then
      if |s| > 1 && forall k :: 1 <= k < |s| ==> IsDigit(s[k]) then Some(0 - ParseDigits(s[1..]) as int) else None
    else if |s| > 0 && forall k :: 0 <= k < |s| ==> IsDigit(s[k]) then Some(ParseDigits(s) as int)
    else None
  }

  /** Parse one "w,h" field. */
  function ParsePair(field: string): Option<Box> {
    var parts := SplitOn(field, ',');
    if |parts| != 2 then None
    else match (ParseInt(parts[0]), ParseInt(parts[1]))
      case (Some(w), Some(h)) => Some(Box(w, h))
      case _ => None
  }

  function ParseFields(fields: seq<string>): Option<seq<Box>> {
    if |fields| == 0 then Some([])
    else match (ParsePair(fields[0]), ParseFields(fields[1..]))
      case (Some(c), Some(rest)) => Some([c] + rest)
      case _ => None
  }

  /** Split the content on spaces (the last piece is the empty one after the trailing space), then each field on commas. */
  function ParseAnchors(content: string): Option<seq<Box>> {
    var fields := SplitOn(content, ' ');
    if fields[|fields| - 1] != "" then None else ParseFields(fields[..|fields| - 1])
  }

  lemma {:induction false} ParseNatToString(n: nat)
    ensures ParseDigits(NatToString(n)) == n
    decreases n
  {
    if n >= 10 {
      ParseNatToString(n / 10);
      var s := NatToString(n);
      assert s[..|s| - 1] == NatToString(n / 10);
    }
  }

  lemma DigitsHaveNoSeparator(s: string)
    requires forall k :: 0 <= k < |s| ==> IsDigit(s[k])
    ensures ' ' !in s && ',' !in s && '-' !in s
  {
    forall k | 0 <= k < |s|
      ensures s[k] != ' ' && s[k] != ',' && s[k] != '-'
    {
      assert IsDigit(s[k]);
    }
  }

  lemma NegativeRoundTrip(m: nat)
    requires m > 0
    ensures ParseInt("-" + NatToString(m)) == Some(0 - m)
  {
    var d := NatToString(m);
    var s := "-" + d;
    assert s[1..] == d;
    forall k | 1 <= k < |s|
      ensures IsDigit(s[k])
    {
      assert s[k] == d[k - 1];
    }
    ParseNatToString(m);
  }

  lemma IntRoundTrip(n: int)
    ensures ParseInt(IntToString(n)) == Some(n)
    ensures ' ' !in IntToString(n) && ',' !in IntToString(n)
  {
    if n < 0 {
      NegativeRoundTrip(-n);
      DigitsHaveNoSeparator(NatToString(-n));
      assert IntToString(n) == "-" + NatToString(-n);
    } else {
      var d := NatToString(n);
      DigitsHaveNoSeparator(d);
      ParseNatToString(n);
      assert d[0] != '-';
      assert ParseInt(d) == Some(ParseDigits(d) as int);
    }
  }

  lemma EntryRoundTrip(c: Box)
    ensures ' ' !in IntToString(c.w) + "," + IntToString(c.h)
    ensures ParsePair(IntToString(c.w) + "," + IntToString(c.h)) == Some(c)
  {
    IntRoundTrip(c.w);
    IntRoundTrip(c.h);
    var a, b := IntToString(c.w), IntToString(c.h);
    SplitOnFirst(a, ',', b);
    SplitOnNoSep(b, ',');
    assert a + "," + b == a + [','] + b;
  }

  lemma SplitSerializedCons(cs: seq<Box>)
    requires |cs| > 0
    ensures SplitOn(Serialize(cs), ' ')
            == [IntToString(cs[0].w) + "," + IntToString(cs[0].h)] + SplitOn(Serialize(cs[1..]), ' ')
    ensures ParsePair(IntToString(cs[0].w) + "," + IntToString(cs[0].h)) == Some(cs[0])
  {
    var c := cs[0];
    EntryRoundTrip(c);
    var field := IntToString(c.w) + "," + IntToString(c.h);
    assert Serialize(cs) == field + [' '] + Serialize(cs[1..]);
    SplitOnFirst(field, ' ', Serialize(cs[1..]));
  }

  lemma {:induction false} SplitSerialized(cs: seq<Box>)
    ensures var fields := SplitOn(Serialize(cs), ' ');
            |fields| == |cs| + 1 && fields[|cs|] == "" &&
            ParseFields(fields[..|cs|]) == Some(cs)
  {
    if |cs| > 0 {
      SplitSerializedCons(cs);
      SplitSerialized(cs[1..]);
      var rest := SplitOn(Serialize(cs[1..]), ' ');
      var field := IntToString(cs[0].w) + "," + IntToString(cs[0].h);
      var fields := [field] + rest;
      assert fields[..|cs|] == [field] + rest[..|cs| - 1];
      assert fields[..|cs|][1..] == rest[..|cs| - 1];
      assert [cs[0]] + cs[1..] == cs;
    }
  }

  /** Reading a written file back by spaces and then commas recovers the centroids. */
  lemma SerializeRoundTrip(cs: seq<Box>)
    ensures ParseAnchors(Serialize(cs)) == Some(cs)
  {
    SplitSerialized(cs);
  }
}
