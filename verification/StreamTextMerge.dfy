/**
 * Merging streamed text chunks that may be increments, overlapping repeats or growing snapshots, and turning
 * the merged totals into deltas a client can replay.
 *
 * `nfc` stands for Unicode NFC normalisation.
 */
module StreamTextMerge {
  import opened Prelude
  import opened Text

  /** What is used of NFC: it is idempotent and leaves the empty text empty. */
  ghost predicate Normalises(nfc: string -> string) {
    nfc("") == "" && forall s :: nfc(nfc(s)) == nfc(s)
  }

  predicate Overlaps(p: string, c: string, k: nat) {
    k <= |p| && k <= |c| && p[|p| - k..] == c[..k]
  }

  /** An overlap the search accepts: proper on both sides, and one character only between short texts. */
  predicate Admissible(p: string, c: string, k: nat) {
    && 1 <= k < Min(|p|, |c|) && Overlaps(p, c, k)
    && !(k == 1 && Min(|p|, |c|) > 3)
  }

  /** The largest admissible overlap not above `k`, or 0. */
  function BestOverlap(p: string, c: string, k: nat): (best: nat)
    ensures best <= k
  {
    if k == 0 || Admissible(p, c, k) then k else BestOverlap(p, c, k - 1)
  }

  lemma {:induction false} BestIsLargest(p: string, c: string, k: nat)
    ensures BestOverlap(p, c, k) > 0 ==> Admissible(p, c, BestOverlap(p, c, k))
    ensures forall j :: BestOverlap(p, c, k) < j <= k ==> !Admissible(p, c, j)
  {
    if k > 0 && !Admissible(p, c, k) {
      BestIsLargest(p, c, k - 1);
    }
  }

  function Merge(nfc: string -> string, prev: string, chunk: string): string {
    var p, c := nfc(prev), nfc(chunk);
    if c == "" then p
    else if p == "" then c
    else if p <= c then c
    else if c <= p then p
    else p + c[BestOverlap(p, c, Min(|p|, |c|))..]
  }

  /** `merge_stream_text`: the descending search for the overlap. The branches for a full overlap never fire. */
  method MergeStreamText(nfc: string -> string, prev: string, chunk: string) returns (r: string)
    ensures r == Merge(nfc, prev, chunk)
  {
    var c := nfc(chunk);
    if c == "" {
      return nfc(prev);
    }
    var p := nfc(prev);
    if p == "" {
      return c;
    }
    if p <= c {
      return c;
    }
    if c <= p {
      return p;
    }
    var minLen := Min(|p|, |c|);
    BestIsLargest(p, c, minLen);
    var k := minLen - 1;
    while k > 0
      invariant 0 <= k < minLen
      invariant forall j :: k < j <= minLen ==> !Admissible(p, c, j)
    {
      if p[|p| - k..] == c[..k] && !(k == 1 && minLen > 3) {
        assert Admissible(p, c, k);
        assert k < |c| && k < |p|;
        return p + c[k..];
      }
      k := k - 1;
    }
    r := p + c;
  }

  /** What an overlap is, character by character: the end of the one is the beginning of the other. */
  lemma SharedText(p: string, c: string, k: nat)
    ensures Admissible(p, c, k) <==>
            && 1 <= k < |p| && k < |c| && (k > 1 || |p| <= 3 || |c| <= 3)
            && forall i :: 0 <= i < k ==> c[i] == p[|p| - k + i]
  {
    if 1 <= k < |p| && k < |c| {
      var end, start := p[|p| - k..], c[..k];
      forall i | 0 <= i < k ensures end[i] == p[|p| - k + i] && start[i] == c[i] {}
      assert (forall i :: 0 <= i < k ==> start[i] == end[i]) <==> end == start;
    }
  }

  /** Of two texts of which one begins with the other the longer is the result; a blank chunk adds nothing. */
  lemma MergePrefixes(nfc: string -> string, prev: string, chunk: string)
    ensures nfc(prev) <= nfc(chunk) ==> Merge(nfc, prev, chunk) == nfc(chunk)
    ensures nfc(chunk) <= nfc(prev) ==> Merge(nfc, prev, chunk) == nfc(prev)
  {
  }

  /** The merged text always extends the normalised previous text. */
  lemma MergeExtends(nfc: string -> string, prev: string, chunk: string)
    ensures nfc(prev) <= Merge(nfc, prev, chunk)
  {
  }

  /**
   * The merged text in one formula: a snapshot of the previous text wins, a repeat of its beginning is dropped,
   * and otherwise exactly the largest admissible proper overlap is left out.
   */
  lemma MergeDropsLargestOverlap(nfc: string -> string, prev: string, chunk: string, k: nat)
    requires var p, c := nfc(prev), nfc(chunk); !(p <= c) && !(c <= p)
    requires var p, c := nfc(prev), nfc(chunk);
             Admissible(p, c, k) && forall j :: j > k ==> !Admissible(p, c, j)
    ensures Merge(nfc, prev, chunk) == nfc(prev) + nfc(chunk)[k..]
    ensures nfc(chunk) <= Merge(nfc, prev, chunk)[|nfc(prev)| - k..]
  {
    var p, c := nfc(prev), nfc(chunk);
    var best := BestOverlap(p, c, Min(|p|, |c|));
    BestIsLargest(p, c, Min(|p|, |c|));
    assert best == k;
    assert Merge(nfc, prev, chunk)[|p| - k..] == p[|p| - k..] + c[k..];
    assert c[..k] + c[k..] == c;
  }

  /** One of the two is empty, or they share nothing: neither is a prefix of the other and no overlap is admissible. */
  predicate Disjoint(p: string, c: string) {
    p == "" || c == ""
    || (!(p <= c) && !(c <= p) && forall k :: 1 <= k <= Min(|p|, |c|) ==> !Admissible(p, c, k))
  }

  /** Plain appending is what happens exactly when the previous text and the chunk share nothing. */
  lemma MergeAppendsIff(nfc: string -> string, prev: string, chunk: string)
    ensures Merge(nfc, prev, chunk) == nfc(prev) + nfc(chunk) <==> Disjoint(nfc(prev), nfc(chunk))
  {
    var p, c := nfc(prev), nfc(chunk);
    if p == "" || c == "" {
      assert p + c == if p == "" then c else p;
    } else if p <= c || c <= p {
      assert |Merge(nfc, prev, chunk)| < |p + c|;
    } else {
      var best := BestOverlap(p, c, Min(|p|, |c|));
      BestIsLargest(p, c, Min(|p|, |c|));
      assert |Merge(nfc, prev, chunk)| == |p| + |c| - best;
    }
  }

  /** A stream of increments loses text when an increment repeats the text so far: "ha" then "ha" stays "ha". */
  lemma RepeatedIncrementIsLost(nfc: string -> string)
    requires nfc("ha") == "ha"
    ensures Merge(nfc, "ha", "ha") == "ha" != "ha" + "ha"
  {
    assert |"ha" + "ha"| == 4;
  }

  // ---------------------------------------------------------------- deltas

  datatype Channel = Content | Reasoning

  datatype Emitted = Silent | Increment(text: string) | Snapshot(text: string)

  class MergingToIncremental {
    var acc: map<Channel, string>

    constructor ()
      ensures acc == map[]
    {
      acc := map[];
    }

    function Total(ch: Channel): string
      reads this
    {
      if ch in acc then acc[ch] else ""
    }

    method Reset()
      modifies this
      ensures acc == map[]
    {
      acc := map[];
    }

    method Consume(nfc: string -> string, ch: Channel, raw: string) returns (e: Emitted)
      modifies this
      ensures e == Emit(old(Total(ch)), Merge(nfc, old(Total(ch)), raw))
      ensures Total(ch) == Merge(nfc, old(Total(ch)), raw)
      ensures forall other :: other != ch ==> Total(other) == old(Total(other))
    {
      var prev := Total(ch);
      var total := MergeStreamText(nfc, prev, raw);
      if total == prev {
        return Silent;
      }
      acc := acc[ch := total];
      if prev <= total {
        return Increment(total[|prev|..]);
      }
      e := Snapshot(total);
    }
  }

  /** What is sent for a change of the total. */
  function Emit(prev: string, total: string): Emitted {
    if total == prev then Silent
    else if prev <= total then Increment(total[|prev|..])
    else Snapshot(total)
  }

  /** Nothing is sent exactly for an unchanged total; an increment is exactly what is new at its end. */
  lemma EmitMeans(prev: string, total: string, t: string)
    ensures Emit(prev, total) == Silent <==> total == prev
    ensures Emit(prev, total) == Increment(t) <==> t != "" && total == prev + t
    ensures Emit(prev, total) == Snapshot(t) <==> t == total && !(prev <= total)
  {
    assert prev <= total ==> total == prev + total[|prev|..];
    assert total == prev + t ==> total[|prev|..] == t;
  }

  /** As long as normalising the total leaves it alone, whatever comes is sent as an increment or not at all. */
  lemma NoSnapshotOfNormal(nfc: string -> string, prev: string, chunk: string)
    requires nfc(prev) == prev
    ensures !Emit(prev, Merge(nfc, prev, chunk)).Snapshot?
  {
    MergeExtends(nfc, prev, chunk);
  }

  /** A client appends increments and replaces its text on snapshots. */
  function Apply(text: string, e: Emitted): string {
    match e
    case Silent => text
    case Increment(t) => text + t
    case Snapshot(t) => t
  }

  datatype Raw = Raw(ch: Channel, text: string)

  type Totals = map<Channel, string>

  function TotalOf(t: Totals, ch: Channel): string {
    if ch in t then t[ch] else ""
  }

  /** The totals after a run, and the client's texts after replaying what was emitted. */
  datatype Replayed = Replayed(totals: Totals, client: Totals)

  function Replay(nfc: string -> string, chunks: seq<Raw>): Replayed {
    if chunks == [] then Replayed(map[], map[])
    else
      var before, c := Replay(nfc, chunks[..|chunks| - 1]), chunks[|chunks| - 1];
      var prev := TotalOf(before.totals, c.ch);
      var total := Merge(nfc, prev, c.text);
      Replayed(before.totals[c.ch := total],
          before.client[c.ch := Apply(TotalOf(before.client, c.ch), Emit(prev, total))])
  }

  /** For any chunks on both channels the client holds the worker's total after every step. */
  lemma {:induction false} ClientHoldsTotal(nfc: string -> string, chunks: seq<Raw>, ch: Channel)
    ensures TotalOf(Replay(nfc, chunks).client, ch) == TotalOf(Replay(nfc, chunks).totals, ch)
    decreases |chunks|
  {
    if chunks != [] {
      ClientHoldsTotal(nfc, chunks[..|chunks| - 1], ch);
    }
  }

  /** The chunks of one channel. */
  function OnChannel(chunks: seq<Raw>, ch: Channel): seq<string> {
    if chunks == [] then []
    else
      OnChannel(chunks[..|chunks| - 1], ch) +
      if chunks[|chunks| - 1].ch == ch then [chunks[|chunks| - 1].text] else []
  }

  function Totalled(nfc: string -> string, texts: seq<string>): string {
    if texts == [] then "" else Merge(nfc, Totalled(nfc, texts[..|texts| - 1]), texts[|texts| - 1])
  }

  lemma TotalsStep(nfc: string -> string, chunks: seq<Raw>, ch: Channel)
    requires chunks != []
    ensures var front, c := chunks[..|chunks| - 1], chunks[|chunks| - 1];
            var was := TotalOf(Replay(nfc, front).totals, ch);
            TotalOf(Replay(nfc, chunks).totals, ch) == if c.ch == ch then Merge(nfc, was, c.text) else was
  {
  }

  lemma TotalledSnoc(nfc: string -> string, texts: seq<string>, text: string)
    ensures Totalled(nfc, texts + [text]) == Merge(nfc, Totalled(nfc, texts), text)
  {
    assert (texts + [text])[..|texts|] == texts;
  }

  /** The channels do not influence each other. */
  lemma {:induction false} ChannelsAreIndependent(nfc: string -> string, chunks: seq<Raw>, ch: Channel)
    ensures TotalOf(Replay(nfc, chunks).totals, ch) == Totalled(nfc, OnChannel(chunks, ch))
    decreases |chunks|
  {
    if chunks != [] {
      var front, c := chunks[..|chunks| - 1], chunks[|chunks| - 1];
      ChannelsAreIndependent(nfc, front, ch);
      TotalsStep(nfc, chunks, ch);
      var texts := OnChannel(front, ch);
      if c.ch == ch {
        TotalledSnoc(nfc, texts, c.text);
        assert OnChannel(chunks, ch) == texts + [c.text];
        assert Totalled(nfc, texts) == TotalOf(Replay(nfc, front).totals, ch);
      } else {
        assert OnChannel(chunks, ch) == texts;
      }
    }
  }

  /** Normalisation changes neither the chunks nor what they are merged into. */
  ghost predicate Unchanged(nfc: string -> string, texts: seq<string>) {
    && (forall i :: 0 <= i < |texts| ==> nfc(texts[i]) == texts[i])
    && (forall i :: 0 <= i <= |texts| ==> nfc(Totalled(nfc, texts[..i])) == Totalled(nfc, texts[..i]))
  }

  lemma MergeNeverAdds(nfc: string -> string, prev: string, chunk: string)
    ensures |Merge(nfc, prev, chunk)| <= |nfc(prev)| + |nfc(chunk)|
  {
  }

  lemma NextTotal(nfc: string -> string, texts: seq<string>, n: nat)
    requires n < |texts|
    ensures Totalled(nfc, texts[..n + 1]) == Merge(nfc, Totalled(nfc, texts[..n]), texts[n])
    ensures Join(texts[..n + 1]) == Join(texts[..n]) + texts[n]
  {
    assert texts[..n + 1][..n] == texts[..n];
  }

  lemma {:induction false} TotalNeverLonger(nfc: string -> string, texts: seq<string>, n: nat)
    requires Unchanged(nfc, texts) && n <= |texts|
    ensures |Totalled(nfc, texts[..n])| <= |Join(texts[..n])|
  {
    if n > 0 {
      TotalNeverLonger(nfc, texts, n - 1);
      NextTotal(nfc, texts, n - 1);
      MergeNeverAdds(nfc, Totalled(nfc, texts[..n - 1]), texts[n - 1]);
    }
  }

  /** When nothing is lost up to a chunk, nothing was lost before it. */
  lemma LossStays(nfc: string -> string, texts: seq<string>, n: nat)
    requires Unchanged(nfc, texts) && n < |texts| && Totalled(nfc, texts[..n + 1]) == Join(texts[..n + 1])
    ensures Totalled(nfc, texts[..n]) == Join(texts[..n])
  {
    var was, now := Totalled(nfc, texts[..n]), Totalled(nfc, texts[..n + 1]);
    NextTotal(nfc, texts, n);
    TotalNeverLonger(nfc, texts, n);
    MergeNeverAdds(nfc, was, texts[n]);
    MergeExtends(nfc, was, texts[n]);
    assert was == now[..|was|];
    assert Join(texts[..n]) == now[..|Join(texts[..n])|];
  }

  /** The total of the first `n` chunks is all of their text. */
  ghost predicate Complete(nfc: string -> string, texts: seq<string>, n: nat)
    requires n <= |texts|
  {
    Totalled(nfc, texts[..n]) == Join(texts[..n])
  }

  /** The chunk shares nothing with all the text before it. */
  predicate New(texts: seq<string>, i: nat)
    requires i < |texts|
  {
    Disjoint(Join(texts[..i]), texts[i])
  }

  lemma CompleteStep(nfc: string -> string, texts: seq<string>, n: nat)
    requires Unchanged(nfc, texts) && n < |texts|
    ensures Complete(nfc, texts, n + 1) <==> Complete(nfc, texts, n) && New(texts, n)
  {
    NextTotal(nfc, texts, n);
    if Complete(nfc, texts, n + 1) {
      LossStays(nfc, texts, n);
    }
    if Complete(nfc, texts, n) {
      MergeAppendsIff(nfc, Totalled(nfc, texts[..n]), texts[n]);
    }
  }

  /** A stream of increments arrives complete exactly when each chunk shares nothing with all the text before it. */
  lemma {:induction false} NothingLostIff(nfc: string -> string, texts: seq<string>, n: nat)
    requires Unchanged(nfc, texts) && n <= |texts|
    ensures Complete(nfc, texts, n) <==> forall i :: 0 <= i < n ==> New(texts, i)
  {
    if n > 0 {
      NothingLostIff(nfc, texts, n - 1);
      CompleteStep(nfc, texts, n - 1);
    } else {
      NothingYet(nfc, texts);
    }
  }

  lemma NothingYet(nfc: string -> string, texts: seq<string>)
    ensures Complete(nfc, texts, 0)
  {
  }

  /** Each text, normalised, extends the one before. */
  ghost predicate Cumulative(nfc: string -> string, texts: seq<string>) {
    forall i :: 0 < i < |texts| ==> nfc(texts[i - 1]) <= nfc(texts[i])
  }

  /** A stream of growing snapshots ends with exactly the last snapshot. */
  lemma {:induction false} SnapshotsEndWithLast(nfc: string -> string, texts: seq<string>)
    requires Normalises(nfc) && Cumulative(nfc, texts) && texts != []
    ensures Totalled(nfc, texts) == nfc(texts[|texts| - 1])
    decreases |texts|
  {
    var front, last := texts[..|texts| - 1], texts[|texts| - 1];
    if front != [] {
      SnapshotsEndWithLast(nfc, front);
      assert texts[|front| - 1] == front[|front| - 1];
    }
  }
}
