// The content of a block as a function of the events recorded in it.
module BlockLayout {
  import opened Wrappers
  import opened Qwords
  import opened Memory
  import opened EventFormat
  import opened EventStrings
  import opened StringCopy
  import opened EventWriter
  import opened ArgumentRoundTrip

  datatype Timed = Timed(time: Qword, event: Event)

  /** The data of a block after the events `es`. */
  function Layout(es: seq<Timed>): (r: Words)
    ensures |r| <= EVENT_LIMIT
    decreases |es|
  {
    if es == [] then []
    else
      var before := Layout(es[..|es| - 1]);
      if |before| < EVENT_LIMIT then before + WrittenAt(es[|es| - 1], |before|) else before
  }

  function WrittenAt(t: Timed, start: nat): (r: Words)
    requires start < EVENT_LIMIT
    ensures 0 < |r| <= EVENT_LIMIT - start
  {
    Written(t.event, t.time, EVENT_LIMIT - start)
  }

  /** Where event `i` begins. */
  function Start(es: seq<Timed>, i: nat): nat
    requires i <= |es|
  {
    |Layout(es[..i])|
  }

  /** Every event found the cursor before the biased limit. */
  predicate Recordable(es: seq<Timed>) {
    forall i | 0 <= i < |es| :: Start(es, i) < BIASED_LIMIT
  }

  predicate UncutAt(es: seq<Timed>, i: nat)
    requires i < |es|
  {
    Start(es, i) < EVENT_LIMIT && Uncut(es[i].event, EVENT_LIMIT - Start(es, i))
  }

  /** The block holds the events `es`, then the end marker. */
  ghost predicate BlockHolds(words: Words, es: seq<Timed>) {
    |words| == DATA_QWORDS && WordsLie(Layout(es), words, 0) && words[|Layout(es)|] == BLOCK_END_MARKER
  }

  lemma LayoutStep(es: seq<Timed>, i: nat)
    requires i < |es| && Start(es, i) < EVENT_LIMIT
    ensures Layout(es[..i + 1]) == Layout(es[..i]) + WrittenAt(es[i], Start(es, i))
  {
    hide WrittenAt;
    assert es[..i + 1][..i] == es[..i];
  }

  lemma {:induction false} LayoutPrefix(es: seq<Timed>, i: nat)
    requires i <= |es|
    ensures Layout(es[..i]) <= Layout(es)
    decreases |es|
  {
    if i == |es| {
      assert es[..i] == es;
    } else {
      var init := es[..|es| - 1];
      LayoutPrefix(init, i);
      assert init[..i] == es[..i];
    }
  }

  /** Event `i` lies whole in the block, and the next one begins where it ends. */
  lemma EventLies(es: seq<Timed>, words: Words, i: nat)
    requires Recordable(es) && i < |es| && BlockHolds(words, es)
    ensures WordsLie(WrittenAt(es[i], Start(es, i)), words, Start(es, i))
    ensures Start(es, i + 1) == Start(es, i) + |WrittenAt(es[i], Start(es, i))|
    ensures Start(es, i + 1) <= |Layout(es)| <= EVENT_LIMIT
  {
    hide Written, WrittenAt, Layout, WordsLie;
    LayoutStep(es, i);
    LayoutPrefix(es, i + 1);
    PartLies(Layout(es[..i]), WrittenAt(es[i], Start(es, i)), Layout(es), words);
  }

  lemma PartLies(v: Words, w: Words, l: Words, words: Words)
    requires WordsLie(l, words, 0) && v + w <= l
    ensures WordsLie(w, words, |v|)
  {
    assert l == (v + w) + l[|v + w|..];
    WordsLieParts(v + w, l[|v + w|..], words, 0);
    WordsLieParts(v, w, words, 0);
  }

  /** Only the last event of a block can be cut. */
  lemma OnlyLastCut(es: seq<Timed>, i: nat)
    requires Recordable(es) && i + 1 < |es|
    ensures UncutAt(es, i)
  {
    LayoutStep(es, i);
    assert Start(es, i + 1) < BIASED_LIMIT;
  }

  /** What one recording call does to the content of a block. */
  lemma RecordHolds(before: Words, after: Words, es: seq<Timed>, t: Timed, destination: nat)
    requires |before| == |after| == DATA_QWORDS && |Layout(es)| < BIASED_LIMIT && destination < DATA_QWORDS
    requires WordsLie(Layout(es), before, 0)
    requires destination == |Layout(es)| + |WrittenAt(t, |Layout(es)|)|
    requires after[..destination + 1] == before[..|Layout(es)|] + WrittenAt(t, |Layout(es)|) + [BLOCK_END_MARKER]
    ensures Layout(es + [t]) == Layout(es) + WrittenAt(t, |Layout(es)|)
    ensures BlockHolds(after, es + [t]) && destination == |Layout(es + [t])|
    ensures Recordable(es) ==> Recordable(es + [t])
  {
    hide Written, WrittenAt;
    var es' := es + [t];
    assert es[..|es|] == es && es'[..|es|] == es && es'[..|es'|] == es';
    LayoutStep(es', |es|);
    var l := Layout(es');
    forall k | 0 <= k < |l|
      ensures after[0 + k] == l[k]
    {
      assert after[k] == after[..destination + 1][k];
    }
    assert after[destination] == after[..destination + 1][destination];
    if Recordable(es) {
      forall i | 0 <= i < |es'|
        ensures Start(es', i) < BIASED_LIMIT
      {
        if i < |es| {
          assert es'[..i] == es[..i];
          assert Start(es, i) < BIASED_LIMIT;
        }
      }
    }
  }

  /** An event is whole exactly if it ends at least two qwords before the end of the block. */
  lemma UncutExact(es: seq<Timed>, i: nat)
    requires i < |es|
    ensures UncutAt(es, i) <==> Start(es, i) + 1 + |Body(es[i].event)| <= 2042 - 2
  {
    hide Layout, Body;
  }
}
