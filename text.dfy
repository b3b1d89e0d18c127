// Strings as the exporter manipulates them: substring search with the
// semantics of std::string::find, single-space joining of record words,
// the reader-side splitting of a record line, and decimal rendering of
// unsigned integers.
module Text {

  datatype Option<T> = None | Some(value: T)

  /** Concatenation regroups freely; stated once so that long proofs can cite it. */
  lemma Assoc<T>(x: seq<T>, y: seq<T>, z: seq<T>)
    ensures x + y + z == x + (y + z)
  {
  }

  /** `pat` occurs in `s` starting at index `i`. */
  predicate OccursAt(s: string, pat: string, i: nat)
  {
    i + |pat| <= |s| && s[i..i + |pat|] == pat
  }

  ghost predicate Contains(s: string, pat: string)
  {
    exists i: nat :: OccursAt(s, pat, i)
  }

  /** First occurrence of `pat` in `s` at or after `from`; None plays the part of npos. */
  function FindFrom(s: string, pat: string, from: nat): (r: Option<nat>)
    ensures r.Some? ==> r.value + |pat| <= |s|
    decreases |s| - from
  {
    if OccursAt(s, pat, from) then Some(from)
    else if |s| <= from + |pat| then None
    else FindFrom(s, pat, from + 1)
  }

  lemma {:induction false} FindFromSpec(s: string, pat: string, from: nat)
    ensures FindFrom(s, pat, from).Some? ==>
      from <= FindFrom(s, pat, from).value && OccursAt(s, pat, FindFrom(s, pat, from).value)
    ensures FindFrom(s, pat, from).Some? ==>
      forall j: nat :: from <= j < FindFrom(s, pat, from).value ==> !OccursAt(s, pat, j)
    ensures FindFrom(s, pat, from).None? ==> forall j: nat :: from <= j ==> !OccursAt(s, pat, j)
    decreases |s| - from
  {
    if !OccursAt(s, pat, from) && from + |pat| < |s| {
      FindFromSpec(s, pat, from + 1);
    }
  }

  /** `s.find(pat)`: the first occurrence, or None when there is none. */
  function Find(s: string, pat: string): (r: Option<nat>)
    ensures r.Some? ==> r.value + |pat| <= |s|
  {
    FindFrom(s, pat, 0)
  }

  lemma FindSpec(s: string, pat: string)
    ensures Find(s, pat).Some? <==> Contains(s, pat)
    ensures Find(s, pat).Some? ==> OccursAt(s, pat, Find(s, pat).value)
    ensures Find(s, pat).Some? ==> forall j: nat :: j < Find(s, pat).value ==> !OccursAt(s, pat, j)
  {
    FindFromSpec(s, pat, 0);
  }

  /** A word a whitespace-separated reader can recover: non-empty, no blank, no line break. */
  predicate Word(s: string)
  {
    |s| > 0 && ' ' !in s && '\n' !in s
  }

  /** The words joined by single blanks. */
  function Join(ws: seq<string>): string
  {
    if |ws| == 0 then ""
    else if |ws| == 1 then ws[0]
    else ws[0] + " " + Join(ws[1..])
  }

  /** The pieces of `s` between blanks (a reader splitting a record line into columns). */
  function Split(s: string): (r: seq<string>)
    ensures |r| >= 1
    decreases |s|
  {
    if |s| == 0 then [""]
    else if s[0] == ' ' then [""] + Split(s[1..])
    else
      var t := Split(s[1..]);
      [[s[0]] + t[0]] + t[1..]
  }

  lemma {:induction false} SplitAtBlank(a: string, b: string)
    ensures Split(a + " " + b) == Split(a) + Split(b)
    decreases |a|
  {
    var s := a + " " + b;
    if |a| == 0 {
      assert s[0] == ' ' && s[1..] == b;
    } else if a[0] == ' ' {
      assert s[1..] == a[1..] + " " + b;
      SplitAtBlank(a[1..], b);
    } else {
      assert s[0] == a[0] && s[1..] == a[1..] + " " + b;
      SplitAtBlank(a[1..], b);
      var t := Split(a[1..]);
      assert Split(s[1..]) == t + Split(b);
      assert Split(a) == [[a[0]] + t[0]] + t[1..];
    }
  }

  lemma {:induction false} SplitBlankFree(a: string)
    requires ' ' !in a
    ensures Split(a) == [a]
    decreases |a|
  {
    if |a| > 0 {
      assert a[0] in a;
      assert forall c :: c in a[1..] ==> c in a;
      SplitBlankFree(a[1..]);
      assert [a[0]] + a[1..] == a;
    }
  }

  /** Splitting a line of joined words gives the words back. */
  lemma {:induction false} SplitJoin(ws: seq<string>)
    requires |ws| >= 1
    requires forall k :: 0 <= k < |ws| ==> Word(ws[k])
    ensures Split(Join(ws)) == ws
    decreases |ws|
  {
    SplitBlankFree(ws[0]);
    if |ws| > 1 {
      SplitJoin(ws[1..]);
      SplitAtBlank(ws[0], Join(ws[1..]));
      assert [ws[0]] + ws[1..] == ws;
    }
  }

  /** A line of joined words holds no line break. */
  lemma {:induction false} JoinSingleLine(ws: seq<string>)
    requires forall k :: 0 <= k < |ws| ==> Word(ws[k])
    ensures '\n' !in Join(ws)
    decreases |ws|
  {
    if |ws| > 1 {
      JoinSingleLine(ws[1..]);
      assert Word(ws[0]);
      var j := Join(ws);
      assert j == ws[0] + " " + Join(ws[1..]);
      forall i | 0 <= i < |j| ensures j[i] != '\n' {
        if i < |ws[0]| {
          assert j[i] == ws[0][i];
        } else if i > |ws[0]| {
          assert j[i] == Join(ws[1..])[i - |ws[0]| - 1];
        }
      }
    } else if |ws| == 1 {
      assert Word(ws[0]);
    }
  }

  function DigitChar(d: nat): (c: char)
    requires d < 10
    ensures '0' <= c <= '9'
  {
    ('0' as int + d) as char
  }

  predicate Digits(s: string)
  {
    forall k :: 0 <= k < |s| ==> '0' <= s[k] <= '9'
  }

  /** Decimal rendering of an unsigned integer, as `operator<<` writes it. */
  function NatStr(n: nat): (r: string)
    ensures |r| >= 1 && Digits(r)
    decreases n
  {
    if n < 10 then [DigitChar(n)] else NatStr(n / 10) + [DigitChar(n % 10)]
  }

  /** Value of a string of decimal digits (the reader's side of NatStr). */
  function DigitsValue(s: string): nat
    requires Digits(s)
  {
    if |s| == 0 then 0
    else DigitsValue(s[..|s| - 1]) * 10 + (s[|s| - 1] as int - '0' as int)
  }

  lemma {:induction false} NatStrRoundTrip(n: nat)
    ensures DigitsValue(NatStr(n)) == n
    decreases n
  {
    var r := NatStr(n);
    if n >= 10 {
      NatStrRoundTrip(n / 10);
      assert r[..|r| - 1] == NatStr(n / 10);
    }
  }

  lemma NatStrIsWord(n: nat)
    ensures Word(NatStr(n))
  {
    var r := NatStr(n);
    assert forall k :: 0 <= k < |r| ==> r[k] != ' ' && r[k] != '\n';
  }
}
