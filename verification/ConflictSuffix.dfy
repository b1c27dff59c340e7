/**
 * Stable keys for semantic code nodes: cleaning a proposed key, and suffixing it until it is new.
 */
module ConflictSuffix {
  import opened Text

  // ---------------------------------------------------------------- cleaning

  const KEY_MAX := 512

  /** What `[a-z0-9._:-]` accepts when case is ignored, which in Unicode includes four letters beyond ASCII. */
  predicate Safe(c: char) {
    || 'a' <= c <= 'z' || 'A' <= c <= 'Z' || '0' <= c <= '9' || c in "._:-"
    || c == 0x130 as char || c == 0x131 as char || c == 0x17F as char || c == 0x212A as char
  }

  predicate Unsafe(c: char) {
    !Safe(c)
  }

  predicate Underscore(c: char) {
    c == '_'
  }

  /** Every maximal run of characters with `p` becomes one underscore. */
  function Squash(s: string, p: char -> bool): string {
    if s == "" then ""
    else if !p(s[0]) then [s[0]] + Squash(s[1..], p)
    else if |s| > 1 && p(s[1]) then Squash(s[1..], p)
    else "_" + Squash(s[1..], p)
  }

  function TrimLeft(s: string): string {
    if s != "" && s[0] == '_' then TrimLeft(s[1..]) else s
  }

  function TrimRight(s: string): string {
    if s != "" && s[|s| - 1] == '_' then TrimRight(s[..|s| - 1]) else s
  }

  /** The key before it is cut to length. */
  function Cleaned(proposed: string): string {
    TrimRight(TrimLeft(Squash(Squash(Strip(proposed), Unsafe), Underscore)))
  }

  function Normalize(proposed: string): string {
    var s := Cleaned(proposed);
    if s == "" then "c:unnamed" else if |s| <= KEY_MAX then s else s[..KEY_MAX]
  }

  /** Only safe characters and underscores, no two underscores in a row, none in front. */
  predicate Tidy(s: string) {
    && (forall i :: 0 <= i < |s| ==> Safe(s[i]) || s[i] == '_')
    && (forall i :: 0 < i < |s| ==> s[i - 1] != '_' || s[i] != '_')
    && (s != "" ==> s[0] != '_')
  }

  lemma {:induction false} SquashKeepsOnly(s: string, p: char -> bool)
    ensures forall i :: 0 <= i < |Squash(s, p)| ==>
              Squash(s, p)[i] == '_' || (Squash(s, p)[i] in s && !p(Squash(s, p)[i]))
  {
    if s != "" {
      SquashKeepsOnly(s[1..], p);
    }
  }

  lemma {:induction false} CollapseSeparates(s: string)
    ensures s != "" ==> Squash(s, Underscore) != "" && Squash(s, Underscore)[0] == s[0]
    ensures var t := Squash(s, Underscore); forall i :: 0 < i < |t| ==> t[i - 1] != '_' || t[i] != '_'
  {
    if s != "" {
      CollapseSeparates(s[1..]);
      var t, rest := Squash(s, Underscore), Squash(s[1..], Underscore);
      if t == [s[0]] + rest {
        forall i | 0 < i < |t| ensures t[i - 1] != '_' || t[i] != '_' {
          assert t[i] == rest[i - 1];
          if i > 1 { assert t[i - 1] == rest[i - 2]; }
        }
      }
    }
  }

  lemma {:induction false} SquashFixed(s: string, p: char -> bool)
    requires forall i :: 0 <= i < |s| && p(s[i]) ==> s[i] == '_'
    requires forall i :: 0 < i < |s| ==> !p(s[i - 1]) || !p(s[i])
    ensures Squash(s, p) == s
  {
    if s != "" {
      SquashFixed(s[1..], p);
      assert s == [s[0]] + s[1..];
    }
  }

  /** Squashing an already clean text again replaces each lone underscore by itself. */
  lemma TidySquashes(s: string)
    requires Tidy(s)
    ensures Squash(Squash(s, Unsafe), Underscore) == s
  {
    SquashFixed(s, Unsafe);
    SquashFixed(s, Underscore);
  }

  lemma {:induction false} TrimLeftTidies(s: string)
    requires forall i :: 0 <= i < |s| ==> Safe(s[i]) || s[i] == '_'
    requires forall i :: 0 < i < |s| ==> s[i - 1] != '_' || s[i] != '_'
    ensures Tidy(TrimLeft(s))
  {
    if s != "" && s[0] == '_' {
      TrimLeftTidies(s[1..]);
    }
  }

  lemma {:induction false} TrimRightTidies(s: string)
    requires Tidy(s)
    ensures Tidy(TrimRight(s))
    ensures TrimRight(s) != "" ==> TrimRight(s)[|TrimRight(s)| - 1] != '_'
  {
    if s != "" && s[|s| - 1] == '_' {
      TrimRightTidies(s[..|s| - 1]);
    }
  }

  /** Whatever is proposed, the cleaned text is tidy and does not end in an underscore. */
  lemma CleanedIsTidy(proposed: string)
    ensures Tidy(Cleaned(proposed))
    ensures Cleaned(proposed) != "" ==> Cleaned(proposed)[|Cleaned(proposed)| - 1] != '_'
  {
    var once := Squash(Strip(proposed), Unsafe);
    SquashKeepsOnly(Strip(proposed), Unsafe);
    SquashKeepsOnly(once, Underscore);
    CollapseSeparates(once);
    TrimLeftTidies(Squash(once, Underscore));
    TrimRightTidies(TrimLeft(Squash(once, Underscore)));
  }

  /** The safe characters of a text other than underscores, in order. */
  function Letters(s: string): string {
    if s == "" then "" else (if Safe(s[0]) && s[0] != '_' then [s[0]] else "") + Letters(s[1..])
  }

  lemma {:induction false} SquashKeepsLetters(s: string, p: char -> bool)
    requires forall c :: p(c) ==> !Safe(c) || c == '_'
    ensures Letters(Squash(s, p)) == Letters(s)
  {
    if s != "" {
      SquashKeepsLetters(s[1..], p);
      var rest := Squash(s[1..], p);
      assert ([s[0]] + rest)[1..] == rest && ("_" + rest)[1..] == rest;
    }
  }

  lemma {:induction false} TrimLeftKeepsLetters(s: string)
    ensures Letters(TrimLeft(s)) == Letters(s)
  {
    if s != "" && s[0] == '_' {
      TrimLeftKeepsLetters(s[1..]);
    }
  }

  lemma {:induction false} LettersAppend(s: string, c: char)
    ensures Letters(s + [c]) == Letters(s) + if Safe(c) && c != '_' then [c] else ""
  {
    if s != "" {
      LettersAppend(s[1..], c);
      assert (s + [c])[1..] == s[1..] + [c];
    } else {
      assert [c][1..] == "";
    }
  }

  lemma {:induction false} TrimRightKeepsLetters(s: string)
    ensures Letters(TrimRight(s)) == Letters(s)
  {
    if s != "" && s[|s| - 1] == '_' {
      TrimRightKeepsLetters(s[..|s| - 1]);
      LettersAppend(s[..|s| - 1], '_');
      assert s == s[..|s| - 1] + ['_'];
    }
  }

  /** Cleaning loses no safe character and keeps their order; only underscores come and go. */
  lemma CleaningKeepsLetters(proposed: string)
    ensures Letters(Cleaned(proposed)) == Letters(Strip(proposed))
  {
    var text := Strip(proposed);
    var once := Squash(text, Unsafe);
    SquashKeepsLetters(text, Unsafe);
    SquashKeepsLetters(once, Underscore);
    TrimLeftKeepsLetters(Squash(once, Underscore));
    TrimRightKeepsLetters(TrimLeft(Squash(once, Underscore)));
  }

  lemma UnnamedIsTidy()
    ensures Tidy("c:unnamed")
  {
  }

  /** Every key is tidy, not empty and at most 512 characters long. */
  lemma NormalizedShape(proposed: string)
    ensures Tidy(Normalize(proposed)) && 0 < |Normalize(proposed)| <= KEY_MAX
  {
    CleanedIsTidy(proposed);
    UnnamedIsTidy();
  }

  /** Cleaning a tidy text changes it exactly when it ends in an underscore. */
  lemma CleaningTidy(s: string)
    requires Tidy(s) && s != ""
    ensures Cleaned(s) == s <==> s[|s| - 1] != '_'
    ensures Cleaned(s) == if s[|s| - 1] == '_' then s[..|s| - 1] else s
  {
    StripFixed(s);
    TidySquashes(s);
    assert TrimLeft(s) == s;
    if s[|s| - 1] == '_' {
      assert |s| > 1;
      assert TrimRight(s[..|s| - 1]) == s[..|s| - 1];
    }
  }

  /** Normalising twice is normalising once, except when the cut at 512 leaves an underscore at the end. */
  lemma NormalizeIdempotentIff(proposed: string)
    ensures Normalize(Normalize(proposed)) == Normalize(proposed)
            <==> |Cleaned(proposed)| <= KEY_MAX || Cleaned(proposed)[KEY_MAX - 1] != '_'
  {
    var once := Normalize(proposed);
    NormalizedShape(proposed);
    CleanedIsTidy(proposed);
    CleaningTidy(once);
    assert once[|once| - 1] == '_' ==> |once| > 1;
  }

  /** A proposal whose key changes when it is normalised again. */
  lemma NormalizeNotIdempotent() returns (proposed: string)
    ensures Normalize(Normalize(proposed)) != Normalize(proposed)
  {
    proposed := seq(KEY_MAX - 1, _ => 'a') + "_b";
    CleaningTidy(proposed);
    NormalizeIdempotentIff(proposed);
  }

  // ---------------------------------------------------------------- suffixing

  function Digits(n: nat): (s: string)
    ensures s != ""
  {
    if n < 10 then [(n + '0' as int) as char] else Digits(n / 10) + [(n % 10 + '0' as int) as char]
  }

  function Number(s: string): int {
    if s == "" then 0 else 10 * Number(s[..|s| - 1]) + (s[|s| - 1] as int - '0' as int)
  }

  lemma {:induction false} NumberOfDigits(n: nat)
    ensures Number(Digits(n)) == n
  {
    if n >= 10 {
      NumberOfDigits(n / 10);
      assert Digits(n)[..|Digits(n)| - 1] == Digits(n / 10);
    } else {
      assert Number(Digits(n)[..0]) == 0;
    }
  }

  /** Decimal digits without a zero in front. */
  lemma {:induction false} DigitsMean(n: nat)
    ensures forall i :: 0 <= i < |Digits(n)| ==> '0' <= Digits(n)[i] <= '9'
    ensures n > 0 ==> Digits(n)[0] != '0'
  {
    if n >= 10 {
      DigitsMean(n / 10);
    }
  }

  /** The texts tried after the key itself: the hash alone, then the hash with 1, 2, 3, … behind it. */
  function Candidate(key: string, hash: string, n: nat): string {
    key + "#" + hash + if n == 0 then "" else Digits(n)
  }

  lemma CandidatesDiffer(key: string, hash: string, i: nat, j: nat)
    requires i != j
    ensures Candidate(key, hash, i) != Candidate(key, hash, j)
  {
    var stem := key + "#" + hash;
    NumberOfDigits(i);
    NumberOfDigits(j);
    assert Candidate(key, hash, i)[|stem|..] == if i == 0 then "" else Digits(i);
    assert Candidate(key, hash, j)[|stem|..] == if j == 0 then "" else Digits(j);
  }

  /** The key and its first `n` candidates. */
  ghost function Tried(key: string, hash: string, n: nat): set<string> {
    if n == 0 then {key} else Tried(key, hash, n - 1) + {Candidate(key, hash, n - 1)}
  }

  lemma {:induction false} TriedCount(key: string, hash: string, n: nat)
    ensures |Tried(key, hash, n)| == n + 1
    ensures forall s :: s in Tried(key, hash, n) <==> s == key || exists i: nat :: i < n && s == Candidate(key, hash, i)
  {
    if n > 0 {
      TriedCount(key, hash, n - 1);
      forall i: nat | i < n - 1 ensures Candidate(key, hash, i) != Candidate(key, hash, n - 1) {
        CandidatesDiffer(key, hash, i, n - 1);
      }
      assert |Candidate(key, hash, n - 1)| > |key|;
    }
  }

  /** Pigeonhole: a finite set holds only so many of the pairwise different texts tried. */
  lemma TakenCandidatesFit(key: string, hash: string, n: nat, existing: set<string>)
    requires key in existing && forall i: nat :: i < n ==> Candidate(key, hash, i) in existing
    ensures n + 1 <= |existing|
  {
    TriedCount(key, hash, n);
    SubsetCount(Tried(key, hash, n), existing);
  }

  lemma {:induction false} SubsetCount(a: set<string>, b: set<string>)
    requires a <= b
    ensures |a| <= |b|
  {
    if a != {} {
      var x :| x in a;
      SubsetCount(a - {x}, b - {x});
    }
  }

  /** The first text not taken. */
  ghost predicate FirstFree(key: string, hash: string, existing: set<string>, r: string) {
    if key !in existing then r == key
    else exists n: nat :: r == Candidate(key, hash, n) && r !in existing && n < |existing|
                          && forall i: nat :: i < n ==> Candidate(key, hash, i) in existing
  }

  /** The key a proposal is given when `existing` is taken. */
  ghost predicate NextKey(proposal: string, existing: set<string>, sha: string -> string, r: string) {
    FirstFree(Normalize(proposal), sha(Normalize(proposal)), existing, r)
  }

  lemma NextKeyUnique(proposal: string, existing: set<string>, sha: string -> string, r: string, s: string)
    requires NextKey(proposal, existing, sha, r) && NextKey(proposal, existing, sha, s)
    ensures r == s
  {
    FirstFreeUnique(Normalize(proposal), sha(Normalize(proposal)), existing, r, s);
  }

  /** At most one text is the first free one. */
  lemma FirstFreeUnique(key: string, hash: string, existing: set<string>, r: string, s: string)
    requires FirstFree(key, hash, existing, r) && FirstFree(key, hash, existing, s)
    ensures r == s
  {
  }

  /** The loop ends after fewer than `|existing|` suffixes, with the first candidate that is free. */
  method WithConflictSuffix(base: string, existing: set<string>, sha: string -> string) returns (r: string)
    ensures NextKey(base, existing, sha, r) && r !in existing
  {
    var b := Normalize(base);
    if b !in existing {
      return b;
    }
    var h := sha(b);
    var candidate := b + "#" + h;
    assert candidate == Candidate(b, h, 0);
    ghost var n := 0;
    var next := 1;
    TakenCandidatesFit(b, h, 0, existing);
    while candidate in existing
      invariant next == n + 1 && n < |existing| && candidate == Candidate(b, h, n)
      invariant forall i: nat :: i < n ==> Candidate(b, h, i) in existing
      decreases |existing| - n
    {
      TakenCandidatesFit(b, h, n + 1, existing);
      candidate := b + "#" + h + Digits(next);
      next := next + 1;
      n := n + 1;
    }
    r := candidate;
  }

  /** Each proposal in turn is given the first key that neither the given set nor an earlier proposal has. */
  ghost predicate Assigned(proposals: seq<string>, existing: set<string>, sha: string -> string, keys: seq<string>) {
    && |keys| == |proposals|
    && forall i :: 0 <= i < |keys| ==>
         NextKey(proposals[i], existing + SetOf(keys[..i]), sha, keys[i])
  }

  ghost function SetOf(keys: seq<string>): set<string> {
    set k | k in keys
  }

  /** Keys handed out one after the other never collide, with each other or with the ones that were there. */
  lemma AssignedKeysDistinct(proposals: seq<string>, existing: set<string>, sha: string -> string, keys: seq<string>)
    requires Assigned(proposals, existing, sha, keys)
    ensures forall i, j :: 0 <= i < j < |keys| ==> keys[i] != keys[j]
    ensures forall i :: 0 <= i < |keys| ==> keys[i] !in existing
  {
    forall i, j | 0 <= i < j < |keys| ensures keys[i] != keys[j] {
      assert keys[..j][i] in keys[..j];
      assert keys[i] in existing + SetOf(keys[..j]);
    }
  }

  /** Being assigned, one key at a time. */
  lemma AssignedSnoc(proposals: seq<string>, existing: set<string>, sha: string -> string, keys: seq<string>, n: nat)
    requires |keys| == |proposals| == n + 1
    ensures Assigned(proposals, existing, sha, keys)
            <==> Assigned(proposals[..n], existing, sha, keys[..n])
                 && NextKey(proposals[n], existing + SetOf(keys[..n]), sha, keys[n])
  {
    forall i | 0 <= i < n ensures keys[..n][..i] == keys[..i] {}
    if Assigned(proposals[..n], existing, sha, keys[..n]) {
      forall i | 0 <= i < n
        ensures NextKey(proposals[i], existing + SetOf(keys[..i]), sha, keys[i])
      {
        assert proposals[..n][i] == proposals[i] && keys[..n][i] == keys[i];
      }
    }
  }

  /** Whatever is proposed, such an assignment exists. */
  lemma {:induction false} AssignmentExists(proposals: seq<string>, existing: set<string>, sha: string -> string)
    returns (keys: seq<string>)
    ensures Assigned(proposals, existing, sha, keys)
    decreases |proposals|
  {
    if proposals == [] {
      return [];
    }
    var n := |proposals| - 1;
    var front := AssignmentExists(proposals[..n], existing, sha);
    var r := FreeKeyExists(Normalize(proposals[n]), sha(Normalize(proposals[n])), existing + SetOf(front));
    keys := front + [r];
    assert keys[..n] == front;
    AssignedSnoc(proposals, existing, sha, keys, n);
  }

  lemma NextAgrees(proposals: seq<string>, existing: set<string>, sha: string -> string,
                   keys: seq<string>, other: seq<string>, i: nat)
    requires Assigned(proposals, existing, sha, keys) && Assigned(proposals, existing, sha, other)
    requires i < |proposals| && keys[..i] == other[..i]
    ensures keys[i] == other[i]
  {
    NextKeyUnique(proposals[i], existing + SetOf(keys[..i]), sha, keys[i], other[i]);
  }

  lemma {:induction false} PrefixesDecide<T>(keys: seq<T>, other: seq<T>, upTo: nat)
    requires |keys| == |other| && upTo <= |keys|
    requires forall i :: 0 <= i < |keys| && keys[..i] == other[..i] ==> keys[i] == other[i]
    ensures keys[..upTo] == other[..upTo]
    ensures upTo == |keys| ==> keys == other
  {
    if upTo > 0 {
      PrefixesDecide(keys, other, upTo - 1);
      assert keys[..upTo] == keys[..upTo - 1] + [keys[upTo - 1]];
    }
  }

  /** And there is only one. */
  lemma AssignmentUnique(proposals: seq<string>, existing: set<string>, sha: string -> string,
                         keys: seq<string>, other: seq<string>)
    requires Assigned(proposals, existing, sha, keys) && Assigned(proposals, existing, sha, other)
    ensures keys == other
  {
    forall i | 0 <= i < |keys| && keys[..i] == other[..i] ensures keys[i] == other[i] {
      NextAgrees(proposals, existing, sha, keys, other, i);
    }
    PrefixesDecide(keys, other, |keys|);
  }

  lemma FreeKeyExists(key: string, hash: string, existing: set<string>) returns (r: string)
    ensures FirstFree(key, hash, existing, r)
  {
    r := key;
    if key in existing {
      var n: nat := 0;
      TakenCandidatesFit(key, hash, 0, existing);
      while Candidate(key, hash, n) in existing
        invariant n < |existing| && forall i: nat :: i < n ==> Candidate(key, hash, i) in existing
        decreases |existing| - n
      {
        TakenCandidatesFit(key, hash, n + 1, existing);
        n := n + 1;
      }
      r := Candidate(key, hash, n);
    }
  }
}
