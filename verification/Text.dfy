/** The string operations of Python that the modelled code relies on. */
module Text {

  /** The code points `str.isspace` accepts, which is what `str.strip` removes. */
  predicate IsSpace(c: char) {
    var n := c as int;
    || 0x09 <= n <= 0x0D || 0x1C <= n <= 0x20 || n == 0x85 || n == 0xA0 || n == 0x1680
    || 0x2000 <= n <= 0x200A || n == 0x2028 || n == 0x2029 || n == 0x202F || n == 0x205F || n == 0x3000
  }

  /** `"".join(parts)` */
  function Join(parts: seq<string>): string {
    if parts == [] then "" else Join(parts[..|parts| - 1]) + parts[|parts| - 1]
  }

  function StripLeft(s: string): string {
    if s != "" && IsSpace(s[0]) then StripLeft(s[1..]) else s
  }

  function StripRight(s: string): string {
    if s != "" && IsSpace(s[|s| - 1]) then StripRight(s[..|s| - 1]) else s
  }

  /** `s.strip()` */
  function Strip(s: string): string {
    StripRight(StripLeft(s))
  }

  predicate Stripped(s: string) {
    s == "" || (!IsSpace(s[0]) && !IsSpace(s[|s| - 1]))
  }

  lemma {:induction false} StripLeftFacts(s: string)
    ensures StripLeft(s) == "" || !IsSpace(StripLeft(s)[0])
    ensures |StripLeft(s)| <= |s| && StripLeft(s) == s[|s| - |StripLeft(s)|..]
    ensures forall i :: 0 <= i < |s| - |StripLeft(s)| ==> IsSpace(s[i])
    decreases |s|
  {
    if s != "" && IsSpace(s[0]) {
      StripLeftFacts(s[1..]);
    }
  }

  lemma {:induction false} StripRightFacts(s: string)
    ensures StripRight(s) == "" || !IsSpace(StripRight(s)[|StripRight(s)| - 1])
    ensures |StripRight(s)| <= |s| && StripRight(s) == s[..|StripRight(s)|]
    ensures forall i :: |StripRight(s)| <= i < |s| ==> IsSpace(s[i])
    decreases |s|
  {
    if s != "" && IsSpace(s[|s| - 1]) {
      StripRightFacts(s[..|s| - 1]);
    }
  }

  /** What is left after stripping has no blank at either end. */
  lemma StripIsStripped(s: string)
    ensures Stripped(Strip(s))
  {
    StripLeftFacts(s);
    StripRightFacts(StripLeft(s));
  }

  /** Stripping keeps the piece of a text between the blanks around it. */
  lemma StripMeans(s: string) returns (a: nat, b: nat)
    ensures a <= b <= |s| && Strip(s) == s[a..b] && Stripped(s[a..b])
    ensures forall i :: 0 <= i < a || b <= i < |s| ==> IsSpace(s[i])
  {
    var rest := StripLeft(s);
    StripIsStripped(s);
    StripLeftFacts(s);
    StripRightFacts(rest);
    a, b := |s| - |rest|, |s| - |rest| + |Strip(s)|;
    assert rest == s[a..] && Strip(s) == rest[..b - a];
    forall i | b <= i < |s| ensures IsSpace(s[i]) {
      assert s[i] == rest[i - a];
    }
  }

  /** Nothing is left exactly of a text that is all blanks. */
  lemma BlankIff(s: string)
    ensures Strip(s) == "" <==> forall i :: 0 <= i < |s| ==> IsSpace(s[i])
  {
    var a, b := StripMeans(s);
    assert a < b ==> !IsSpace(s[a]) by {
      if a < b {
        assert s[a..b][0] == s[a];
      }
    }
  }

  /** Stripping is the identity on exactly the stripped strings. */
  lemma StripFixed(s: string)
    requires Stripped(s)
    ensures Strip(s) == s
  {
  }

  /** Appending unstrippable text on the right only strips on the left. */
  lemma {:induction false} StripLeftAppend(s: string, tail: string)
    requires tail != "" && !IsSpace(tail[0])
    ensures StripLeft(s + tail) == StripLeft(s) + tail
    decreases |s|
  {
    if s == "" {
      assert s + tail == tail;
    } else {
      assert (s + tail)[0] == s[0];
      assert (s + tail)[1..] == s[1..] + tail;
      if IsSpace(s[0]) {
        StripLeftAppend(s[1..], tail);
      }
    }
  }
}
