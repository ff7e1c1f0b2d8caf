/**
 * process_transcripts: each simulation's audio items are sorted by sequence number,
 * unusable items are skipped, consecutive utterances of one speaker are merged into a
 * line "speaker: text text ...", and the lines are joined with newlines.
 *
 * The merge is specified by three functions: Utterances (what the loop keeps), Blocks
 * (maximal runs of one speaker) and Lines (which runs are written, following the two
 * different guards of the loop body and of the final flush).
 */
module DataLoader {
  import opened Wrappers
  import opened Text
  import opened Audio

  /** A kept item: its speaker (None for a JSON null actor) and its stripped text. */
  datatype Utterance = Utterance(speaker: Option<string>, text: string)

  /** A run of consecutive utterances by one speaker. */
  datatype Block = Block(speaker: Option<string>, texts: seq<string>)

  /** A written line, before rendering. */
  datatype Line = Line(speaker: string, texts: seq<string>)

  /** One simulation as load_simulation_data yields it; audioItems is the list sorted in place. */
  datatype Simulation = Simulation(simulationId: string, company: string, audioItems: array<AudioItem>)

  /** One row of the resulting table. */
  datatype ProcessedRow = ProcessedRow(simulationId: string, company: string, fullTranscript: string)

  /** item.get("actor", "Unknown"). */
  function SpeakerOf(actor: Actor): (speaker: Option<string>)
    ensures speaker.None? <==> actor == NullActor
  {
    match actor
    case NoActorKey => Some("Unknown")
    case NullActor => None
    case Named(name) => Some(name)
  }

  /** The utterance an item contributes: none for a non-object or a missing, non-string or blank text. */
  function UtteranceOf(item: AudioItem): (u: Option<Utterance>)
    ensures u.Some? ==> u.value.text != [] && u.value.text == Strip(u.value.text)
  {
    match item
    case NotAnObject => None
    case Entry(_, actor, text) =>
      if text.None? || text.value == "" || Strip(text.value) == "" then None
      else
        StripIdempotent(text.value);
        Some(Utterance(SpeakerOf(actor), Strip(text.value)))
  }

  /**
   * Which items contribute: an object whose text is a string that is not blank after
   * stripping. A missing actor speaks as "Unknown"; a null actor has no speaker.
   */
  lemma KeptItem(item: AudioItem)
    ensures UtteranceOf(item).Some? <==>
      item.Entry? && item.fileTranscript.Some? && Strip(item.fileTranscript.value) != ""
    ensures UtteranceOf(item).Some? && item.actor == NoActorKey ==> UtteranceOf(item).value.speaker == Some("Unknown")
    ensures UtteranceOf(item).Some? && item.actor == NullActor ==> UtteranceOf(item).value.speaker == None
  {
    if item.Entry? && item.fileTranscript.Some? && item.fileTranscript.value == "" {
      StripEmpty(item.fileTranscript.value);
    }
  }

  /** The utterances the loop keeps, in item order. */
  function Utterances(items: seq<AudioItem>): seq<Utterance> {
    if items == [] then []
    else
      Utterances(items[..|items| - 1])
      + match UtteranceOf(items[|items| - 1]) case Some(u) => [u] case None => []
  }

  /** The runs after one more utterance: the last run grows when the speaker is the same. */
  function Extend(bs: seq<Block>, u: Utterance): seq<Block> {
    if bs != [] && bs[|bs| - 1].speaker == u.speaker
    then bs[..|bs| - 1] + [Block(u.speaker, bs[|bs| - 1].texts + [u.text])]
    else bs + [Block(u.speaker, [u.text])]
  }

  /** The runs of one speaker, in order. */
  function Blocks(us: seq<Utterance>): seq<Block> {
    if us == [] then [] else Extend(Blocks(us[..|us| - 1]), us[|us| - 1])
  }

  /** A run's utterances. */
  function Spread(b: Block): (us: seq<Utterance>)
    ensures |us| == |b.texts|
    ensures forall k :: 0 <= k < |us| ==> us[k] == Utterance(b.speaker, b.texts[k])
  {
    seq(|b.texts|, k requires 0 <= k < |b.texts| => Utterance(b.speaker, b.texts[k]))
  }

  /** All runs' utterances, in order. */
  function Flatten(bs: seq<Block>): seq<Utterance> {
    if bs == [] then [] else Flatten(bs[..|bs| - 1]) + Spread(bs[|bs| - 1])
  }

  /** The runs after one more utterance, seen from their last run. */
  lemma ExtendLast(bs: seq<Block>, u: Utterance)
    ensures var e := Extend(bs, u);
      e != [] &&
      (if bs != [] && bs[|bs| - 1].speaker == u.speaker
       then e[..|e| - 1] == bs[..|bs| - 1] && e[|e| - 1] == Block(u.speaker, bs[|bs| - 1].texts + [u.text])
       else e[..|e| - 1] == bs && e[|e| - 1] == Block(u.speaker, [u.text]))
  {
    var e := Extend(bs, u);
    if bs != [] && bs[|bs| - 1].speaker == u.speaker {
      assert e[..|e| - 1] == bs[..|bs| - 1];
    } else {
      assert e[..|e| - 1] == bs;
    }
  }

  /**
   * Maximal runs: none is empty and neighbours differ in speaker.
   */
  ghost predicate Runs(bs: seq<Block>) {
    (forall i :: 0 <= i < |bs| ==> bs[i].texts != []) &&
    (forall i :: 0 < i < |bs| ==> bs[i - 1].speaker != bs[i].speaker)
  }

  /** Extending keeps the runs maximal. */
  lemma ExtendKeepsRuns(bs: seq<Block>, u: Utterance)
    requires Runs(bs)
    ensures Runs(Extend(bs, u))
  {
  }

  /** Extending adds exactly the new utterance at the end of the flattened runs. */
  lemma ExtendFlatten(bs: seq<Block>, u: Utterance)
    ensures Flatten(Extend(bs, u)) == Flatten(bs) + [u]
  {
    var e := Extend(bs, u);
    ExtendLast(bs, u);
    if bs != [] && bs[|bs| - 1].speaker == u.speaker {
      var last := bs[|bs| - 1];
      assert Spread(e[|e| - 1]) == Spread(last) + [u];
    } else {
      assert Spread(e[|e| - 1]) == [u];
    }
  }

  /** The runs are maximal: none is empty and neighbours differ in speaker. */
  lemma {:induction false} BlocksAreRuns(us: seq<Utterance>)
    ensures Runs(Blocks(us))
  {
    if us != [] {
      var init, u := us[..|us| - 1], us[|us| - 1];
      BlocksAreRuns(init);
      assert Blocks(us) == Extend(Blocks(init), u);
      ExtendKeepsRuns(Blocks(init), u);
    }
  }

  /** Together the runs are the utterances, in order: nothing is dropped, reordered or invented. */
  lemma {:induction false} BlocksFlatten(us: seq<Utterance>)
    ensures Flatten(Blocks(us)) == us
  {
    if us != [] {
      var init, u := us[..|us| - 1], us[|us| - 1];
      assert us == init + [u];
      BlocksFlatten(init);
      BlocksSnoc(init, u);
      ExtendFlatten(Blocks(init), u);
    }
  }

  /** The lines written when a run is closed by a change of speaker: only runs whose speaker is not None. */
  function Closed(bs: seq<Block>): seq<Line> {
    if bs == [] then []
    else
      var b := bs[|bs| - 1];
      Closed(bs[..|bs| - 1]) + if b.speaker.Some? then [Line(b.speaker.value, b.texts)] else []
  }

  /** The line written after the loop: only for a non-empty speaker and a non-empty run. */
  function Flushed(b: Block): seq<Line> {
    if b.speaker.Some? && b.speaker.value != "" && b.texts != [] then [Line(b.speaker.value, b.texts)] else []
  }

  /** The written lines: every closed run, then the final flush. */
  function Lines(bs: seq<Block>): seq<Line> {
    if bs == [] then [] else Closed(bs[..|bs| - 1]) + Flushed(bs[|bs| - 1])
  }

  /** f"{speaker}: {' '.join(texts)}". */
  function Render(l: Line): string {
    l.speaker + ": " + Join(l.texts, " ")
  }

  function RenderAll(ls: seq<Line>): (rs: seq<string>)
    ensures |rs| == |ls|
    ensures forall k :: 0 <= k < |ls| ==> rs[k] == Render(ls[k])
  {
    if ls == [] then [] else RenderAll(ls[..|ls| - 1]) + [Render(ls[|ls| - 1])]
  }

  /** The full_transcript of a simulation whose items are already sorted. */
  function MergedTranscript(items: seq<AudioItem>): string {
    Join(RenderAll(Lines(Blocks(Utterances(items)))), "\n")
  }

  /** Every written line is a run with a speaker; a run whose speaker is None is never written. */
  lemma {:induction false} ClosedFromSpokenRuns(bs: seq<Block>)
    ensures forall l :: l in Closed(bs) ==> Block(Some(l.speaker), l.texts) in bs
  {
    if bs != [] {
      ClosedFromSpokenRuns(bs[..|bs| - 1]);
    }
  }

  lemma LinesFromSpokenRuns(bs: seq<Block>)
    ensures forall l :: l in Lines(bs) ==> Block(Some(l.speaker), l.texts) in bs
  {
    if bs != [] {
      ClosedFromSpokenRuns(bs[..|bs| - 1]);
    }
  }

  /** Without None speakers every closed run is written, one line each, in order. */
  lemma {:induction false} ClosedAllSpoken(bs: seq<Block>)
    requires forall i :: 0 <= i < |bs| ==> bs[i].speaker.Some?
    ensures |Closed(bs)| == |bs|
    ensures forall i :: 0 <= i < |bs| ==> Closed(bs)[i] == Line(bs[i].speaker.value, bs[i].texts)
  {
    if bs != [] {
      ClosedAllSpoken(bs[..|bs| - 1]);
    }
  }

  /** The final run is written unless its speaker is "". */
  lemma FinalRunWritten(bs: seq<Block>)
    requires bs != [] && forall i :: 0 <= i < |bs| ==> bs[i].speaker.Some? && bs[i].texts != []
    ensures bs[|bs| - 1].speaker != Some("") ==> |Lines(bs)| == |bs|
    ensures bs[|bs| - 1].speaker == Some("") ==> |Lines(bs)| == |bs| - 1
    ensures forall i :: 0 <= i < |Lines(bs)| ==> Lines(bs)[i] == Line(bs[i].speaker.value, bs[i].texts)
  {
    ClosedAllSpoken(bs[..|bs| - 1]);
  }

  /** Each kept utterance is what some item contributes, and no item contributes more than one. */
  lemma {:induction false} UtterancesFromItems(items: seq<AudioItem>)
    ensures |Utterances(items)| <= |items|
    ensures forall u :: u in Utterances(items) ==> exists j :: 0 <= j < |items| && UtteranceOf(items[j]) == Some(u)
  {
    if items != [] {
      var init, last := items[..|items| - 1], items[|items| - 1];
      UtterancesFromItems(init);
      var tail := match UtteranceOf(last) case Some(v) => [v] case None => [];
      assert Utterances(items) == Utterances(init) + tail;
      forall u | u in Utterances(items)
        ensures exists j :: 0 <= j < |items| && UtteranceOf(items[j]) == Some(u)
      {
        if u in Utterances(init) {
          var j :| 0 <= j < |init| && UtteranceOf(init[j]) == Some(u);
          assert items[j] == init[j];
        } else {
          assert u in tail;
          assert UtteranceOf(items[|items| - 1]) == Some(u);
        }
      }
    }
  }

  /** What `f` gives for the items, in item order, skipping the items it gives nothing for. */
  function Kept<T, U>(items: seq<T>, f: T -> Option<U>): seq<U> {
    if items == [] then []
    else Kept(items[..|items| - 1], f) + match f(items[|items| - 1]) case Some(u) => [u] case None => []
  }

  /** `us` is what `f` gives for the items at `idx`. */
  ghost predicate PicksAt<T, U>(items: seq<T>, us: seq<U>, idx: seq<nat>, f: T -> Option<U>) {
    |idx| == |us| && forall j :: 0 <= j < |idx| ==> idx[j] < |items| && f(items[idx[j]]) == Some(us[j])
  }

  ghost predicate Ascending(idx: seq<nat>) {
    forall i, j :: 0 <= i < j < |idx| ==> idx[i] < idx[j]
  }

  /** Every item that `f` gives something for is at some position of `idx`. */
  ghost predicate CoversGiven<T, U>(items: seq<T>, idx: seq<nat>, f: T -> Option<U>) {
    forall k :: 0 <= k < |items| && f(items[k]).Some? ==> k in idx
  }

  /**
   * `us` is what `f` gives for the items at `idx`, taken in item order, and every item
   * that `f` gives something for is among them.
   */
  ghost predicate KeptAt<T, U>(items: seq<T>, us: seq<U>, idx: seq<nat>, f: T -> Option<U>) {
    PicksAt(items, us, idx, f) && Ascending(idx) && CoversGiven(items, idx, f)
  }

  lemma PicksAtSnoc<T, U>(items: seq<T>, f: T -> Option<U>, idx: seq<nat>, prev: seq<U>, tail: seq<U>, all: seq<nat>)
    requires items != [] && PicksAt(items[..|items| - 1], prev, idx, f)
    requires tail == (match f(items[|items| - 1]) case Some(u) => [u] case None => [])
    requires all == idx + if f(items[|items| - 1]).Some? then [|items| - 1] else []
    ensures PicksAt(items, prev + tail, all, f)
  {
    var init, n := items[..|items| - 1], |items| - 1;
    forall j | 0 <= j < |idx| ensures all[j] == idx[j] && (prev + tail)[j] == prev[j] && items[idx[j]] == init[idx[j]] {
    }
  }

  lemma AscendingSnoc(idx: seq<nat>, n: nat, all: seq<nat>)
    requires Ascending(idx) && forall j :: 0 <= j < |idx| ==> idx[j] < n
    requires all == idx || all == idx + [n]
    ensures Ascending(all)
  {
  }

  lemma CoversSnoc<T, U>(items: seq<T>, f: T -> Option<U>, idx: seq<nat>, all: seq<nat>)
    requires items != [] && CoversGiven(items[..|items| - 1], idx, f)
    requires all == idx + if f(items[|items| - 1]).Some? then [|items| - 1] else []
    ensures CoversGiven(items, all, f)
  {
    var init, n := items[..|items| - 1], |items| - 1;
    forall k | 0 <= k < |items| && f(items[k]).Some? ensures k in all {
      if k < n {
        assert items[k] == init[k];
        assert k in idx;
      } else {
        assert f(items[n]).Some?;
        assert all[|idx|] == k;
      }
    }
  }

  /** One more item: what it gives, if anything, comes after all earlier results. */
  lemma KeptAtSnoc<T, U>(items: seq<T>, f: T -> Option<U>, idx: seq<nat>, all: seq<nat>)
    requires items != []
    requires KeptAt(items[..|items| - 1], Kept(items[..|items| - 1], f), idx, f)
    requires all == idx + if f(items[|items| - 1]).Some? then [|items| - 1] else []
    ensures KeptAt(items, Kept(items, f), all, f)
  {
    var init := items[..|items| - 1];
    var tail := match f(items[|items| - 1]) case Some(u) => [u] case None => [];
    assert Kept(items, f) == Kept(init, f) + tail;
    PicksAtSnoc(items, f, idx, Kept(init, f), tail, all);
    AscendingSnoc(idx, |items| - 1, all);
    CoversSnoc(items, f, idx, all);
  }

  /** Kept takes exactly the items `f` gives something for, in item order. */
  lemma {:induction false} KeptIndices<T, U>(items: seq<T>, f: T -> Option<U>)
    ensures exists idx :: KeptAt(items, Kept(items, f), idx, f)
  {
    if items == [] {
      assert KeptAt(items, Kept(items, f), [], f);
    } else {
      var init := items[..|items| - 1];
      KeptIndices(init, f);
      var idx: seq<nat> :| KeptAt(init, Kept(init, f), idx, f);
      var all := idx + if f(items[|items| - 1]).Some? then [|items| - 1] else [];
      KeptAtSnoc(items, f, idx, all);
    }
  }

  lemma {:induction false} UtterancesAreKept(items: seq<AudioItem>)
    ensures Utterances(items) == Kept(items, UtteranceOf)
  {
    if items != [] {
      UtterancesAreKept(items[..|items| - 1]);
    }
  }

  /** The loop keeps exactly the utterances of the items that contribute one, in item order. */
  lemma UtterancesInOrder(items: seq<AudioItem>)
    ensures exists idx :: KeptAt(items, Utterances(items), idx, UtteranceOf)
  {
    UtterancesAreKept(items);
    KeptIndices(items, UtteranceOf);
  }

  /** At most one line per run: a run is written once, or skipped. */
  lemma {:induction false} LinesAtMostRuns(bs: seq<Block>)
    ensures |Closed(bs)| <= |bs|
    ensures |Lines(bs)| <= |bs|
  {
    if bs != [] {
      LinesAtMostRuns(bs[..|bs| - 1]);
    }
  }

  /** A rendered line starts with its speaker and ": ". */
  lemma RenderStartsWithSpeaker(l: Line)
    ensures |l.speaker| + 2 <= |Render(l)|
    ensures Render(l)[..|l.speaker| + 2] == l.speaker + ": "
  {
    assert Render(l) == (l.speaker + ": ") + Join(l.texts, " ");
  }

  /** Joining starts with the first part. */
  lemma JoinStartsWithFirst(parts: seq<string>, sep: string)
    requires parts != []
    ensures |parts[0]| <= |Join(parts, sep)|
  {
  }

  /** The transcript is "" exactly when no line is written. */
  lemma TranscriptEmpty(items: seq<AudioItem>)
    ensures MergedTranscript(items) == "" <==> Lines(Blocks(Utterances(items))) == []
  {
    var ls := Lines(Blocks(Utterances(items)));
    if ls != [] {
      var rs := RenderAll(ls);
      RenderStartsWithSpeaker(ls[0]);
      JoinStartsWithFirst(rs, "\n");
    }
  }

  /** When no utterance survives the transcript is "". */
  lemma NoUtteranceNoTranscript(items: seq<AudioItem>)
    requires Utterances(items) == []
    ensures MergedTranscript(items) == ""
  {
  }

  lemma UtterancesPair(x: AudioItem, y: AudioItem, u1: Utterance, u2: Utterance)
    requires UtteranceOf(x) == Some(u1) && UtteranceOf(y) == Some(u2)
    ensures Utterances([x, y]) == [u1, u2]
  {
    UtteranceFirst(x, u1);
    assert [x] + [y] == [x, y];
    UtteranceKept([x], y, u2);
  }

  lemma UtteranceFirst(x: AudioItem, u: Utterance)
    requires UtteranceOf(x) == Some(u)
    ensures Utterances([x]) == [u]
  {
    assert [x][..0] == [];
  }

  lemma UtteranceKept(items: seq<AudioItem>, y: AudioItem, u: Utterance)
    requires UtteranceOf(y) == Some(u)
    ensures Utterances(items + [y]) == Utterances(items) + [u]
  {
    assert (items + [y])[..|items|] == items;
  }

  lemma JoinPair(a: string, b: string, sep: string)
    ensures Join([a, b], sep) == a + sep + b
  {
    assert [a, b][1..] == [b];
  }

  lemma BlocksPair(u1: Utterance, u2: Utterance)
    ensures u1.speaker != u2.speaker ==> Blocks([u1, u2]) == [Block(u1.speaker, [u1.text]), Block(u2.speaker, [u2.text])]
    ensures u1.speaker == u2.speaker ==> Blocks([u1, u2]) == [Block(u1.speaker, [u1.text, u2.text])]
  {
    BlocksSnoc([], u1);
    BlocksSnoc([u1], u2);
    assert [u1, u2] == [u1] + [u2];
    var first := [Block(u1.speaker, [u1.text])];
    assert Blocks([u1]) == first;
    assert first[..0] == [];
    assert [u1.text] + [u2.text] == [u1.text, u2.text];
  }

  lemma ClosedOne(b: Block)
    requires b.speaker.Some?
    ensures Closed([b]) == [Line(b.speaker.value, b.texts)]
  {
    assert [b][..0] == [];
  }

  /** Two runs with a named speaker each, the last one not "", are both written. */
  lemma LinesTwo(b1: Block, b2: Block)
    requires b1.speaker.Some? && b2.speaker.Some? && b2.speaker.value != "" && b2.texts != []
    ensures Lines([b1, b2]) == [Line(b1.speaker.value, b1.texts), Line(b2.speaker.value, b2.texts)]
  {
    assert [b1, b2][..1] == [b1];
    ClosedOne(b1);
  }

  lemma RenderAllPair(l1: Line, l2: Line)
    ensures RenderAll([l1, l2]) == [Render(l1), Render(l2)]
  {
    assert [l1, l2][..1] == [l1];
  }

  /** A single run with a non-empty named speaker is written. */
  lemma LinesOne(b: Block)
    requires b.speaker.Some? && b.speaker.value != "" && b.texts != []
    ensures Lines([b]) == [Line(b.speaker.value, b.texts)]
  {
    assert [b][..0] == [];
  }

  lemma RenderAllOne(l: Line)
    ensures RenderAll([l]) == [Render(l)]
  {
    assert [l][..0] == [];
  }

  /** Two kept items of different named speakers give two lines. */
  lemma TwoSpeakers(x: AudioItem, y: AudioItem, p: string, q: string, t: string, v: string)
    requires UtteranceOf(x) == Some(Utterance(Some(p), t)) && UtteranceOf(y) == Some(Utterance(Some(q), v))
    requires p != q && q != ""
    ensures MergedTranscript([x, y]) == (p + ": " + t) + "\n" + (q + ": " + v)
  {
    UtterancesPair(x, y, Utterance(Some(p), t), Utterance(Some(q), v));
    BlocksPair(Utterance(Some(p), t), Utterance(Some(q), v));
    var bs := [Block(Some(p), [t]), Block(Some(q), [v])];
    LinesTwo(bs[0], bs[1]);
    RenderAllPair(Line(p, [t]), Line(q, [v]));
    JoinPair(Render(Line(p, [t])), Render(Line(q, [v])), "\n");
  }

  /** Two kept items of the same named speaker are merged into one line, joined by a space. */
  lemma OneSpeaker(x: AudioItem, y: AudioItem, p: string, t: string, v: string)
    requires UtteranceOf(x) == Some(Utterance(Some(p), t)) && UtteranceOf(y) == Some(Utterance(Some(p), v))
    requires p != ""
    ensures MergedTranscript([x, y]) == p + ": " + (t + " " + v)
  {
    UtterancesPair(x, y, Utterance(Some(p), t), Utterance(Some(p), v));
    BlocksPair(Utterance(Some(p), t), Utterance(Some(p), v));
    var b := Block(Some(p), [t, v]);
    LinesOne(b);
    RenderAllOne(Line(p, [t, v]));
    JoinPair(t, v, " ");
    assert MergedTranscript([x, y]) == Render(Line(p, [t, v]));
  }

  /** Without None speakers, neighbouring lines have different speakers. */
  lemma AdjacentLinesDiffer(us: seq<Utterance>)
    requires forall k :: 0 <= k < |us| ==> us[k].speaker.Some?
    ensures var ls := Lines(Blocks(us));
      forall i :: 0 < i < |ls| ==> ls[i - 1].speaker != ls[i].speaker
  {
    var bs := Blocks(us);
    BlocksAreRuns(us);
    if bs != [] {
      forall i | 0 <= i < |bs| ensures bs[i].speaker.Some? {
        SpokenRuns(us, i);
      }
      FinalRunWritten(bs);
    }
  }

  /**
   * Why AdjacentLinesDiffer needs its requires: a run whose actor is null is never written,
   * so a speaker's two runs on either side of it become two adjacent lines with the same speaker.
   */
  lemma NullRunBetween(a: string, t1: string, t2: string, t3: string)
    requires a != ""
    ensures Lines([Block(Some(a), [t1]), Block(None, [t2]), Block(Some(a), [t3])]) == [Line(a, [t1]), Line(a, [t3])]
  {
    var b1, b2, b3 := Block(Some(a), [t1]), Block(None, [t2]), Block(Some(a), [t3]);
    var bs := [b1, b2, b3];
    assert bs[..2] == [b1, b2] && [b1, b2][..1] == [b1];
    ClosedOne(b1);
    assert Closed([b1, b2]) == Closed([b1]);
    assert Flushed(b3) == [Line(a, [t3])];
  }

  /** A run's speaker is the speaker of one of the utterances. */
  lemma SpokenRuns(us: seq<Utterance>, i: nat)
    requires forall k :: 0 <= k < |us| ==> us[k].speaker.Some?
    requires i < |Blocks(us)|
    ensures Blocks(us)[i].speaker.Some?
  {
    BlocksAreRuns(us);
    BlocksFlatten(us);
    var bs := Blocks(us);
    FlattenHas(bs, i);
    var u :| u in us && u.speaker == bs[i].speaker;
  }

  lemma {:induction false} FlattenHas(bs: seq<Block>, i: nat)
    requires i < |bs| && bs[i].texts != []
    ensures exists u :: u in Flatten(bs) && u.speaker == bs[i].speaker
  {
    var s := Spread(bs[|bs| - 1]);
    if i == |bs| - 1 {
      assert s[0] in Flatten(bs);
    } else {
      FlattenHas(bs[..|bs| - 1], i);
      var u :| u in Flatten(bs[..|bs| - 1]) && u.speaker == bs[i].speaker;
      assert u in Flatten(bs);
    }
  }

  /** The loop's variables after the utterances whose runs are `bs`: the open run, and the lines of the closed ones. */
  predicate MergeState(bs: seq<Block>, speaker: Option<string>, block: seq<string>, written: seq<string>) {
    if bs == [] then speaker == None && block == [] && written == []
    else speaker == bs[|bs| - 1].speaker && block == bs[|bs| - 1].texts && written == RenderAll(Closed(bs[..|bs| - 1]))
  }

  lemma UtterancesStep(items: seq<AudioItem>, i: nat)
    requires i < |items|
    ensures Utterances(items[..i + 1]) ==
      Utterances(items[..i]) + match UtteranceOf(items[i]) case Some(u) => [u] case None => []
  {
    assert items[..i + 1][..i] == items[..i];
  }

  lemma BlocksSnoc(us: seq<Utterance>, u: Utterance)
    ensures Blocks(us + [u]) == Extend(Blocks(us), u)
  {
    assert (us + [u])[..|us|] == us;
  }

  lemma RenderAllSnoc(ls: seq<Line>, l: Line)
    ensures RenderAll(ls + [l]) == RenderAll(ls) + [Render(l)]
  {
  }

  /** One kept utterance moves the loop's variables from the runs `bs` to the runs Extend(bs, u). */
  lemma MergeStep(bs: seq<Block>, speaker: Option<string>, block: seq<string>, written: seq<string>, u: Utterance)
    requires MergeState(bs, speaker, block, written)
    ensures u.speaker != speaker ==>
      MergeState(Extend(bs, u), u.speaker, [u.text],
                 if speaker.Some? then written + [Render(Line(speaker.value, block))] else written)
    ensures u.speaker == speaker ==> MergeState(Extend(bs, u), speaker, block + [u.text], written)
  {
    ExtendLast(bs, u);
    if bs != [] && u.speaker != speaker && speaker.Some? {
      RenderAllSnoc(Closed(bs[..|bs| - 1]), Line(speaker.value, block));
      assert bs == bs[..|bs| - 1] + [bs[|bs| - 1]];
    }
  }

  /** After the last item, the flush completes the written lines. */
  lemma MergeFinish(bs: seq<Block>, speaker: Option<string>, block: seq<string>, written: seq<string>)
    requires MergeState(bs, speaker, block, written)
    ensures (if speaker.Some? && speaker.value != "" && block != []
             then written + [Render(Line(speaker.value, block))] else written) == RenderAll(Lines(bs))
  {
    if bs != [] && speaker.Some? && speaker.value != "" && block != [] {
      RenderAllSnoc(Closed(bs[..|bs| - 1]), Line(speaker.value, block));
    }
  }

  /** The loop over the sorted items, writing each line as the speaker changes and flushing the last. */
  method MergeDialogue(a: array<AudioItem>) returns (transcript: string)
    ensures transcript == MergedTranscript(a[..])
  {
    var fullTranscript: seq<string> := [];
    var currentSpeaker: Option<string> := None;
    var currentBlock: seq<string> := [];
    ghost var bs: seq<Block> := [];
    var i := 0;
    while i < a.Length
      invariant 0 <= i <= a.Length
      invariant bs == Blocks(Utterances(a[..i]))
      invariant MergeState(bs, currentSpeaker, currentBlock, fullTranscript)
    {
      UtterancesStep(a[..], i);
      assert a[..][..i] == a[..i] && a[..][..i + 1] == a[..i + 1];
      ghost var kept := UtteranceOf(a[i]);
      ghost var us := Utterances(a[..i]);
      ghost var next := Utterances(a[..i + 1]);
      assert kept.None? ==> next == us;
      match a[i] {
        case NotAnObject =>
        case Entry(_, actorField, text) =>
          var actor := SpeakerOf(actorField);
          if text.Some? && text.value != "" {
            var stripped := Strip(text.value);
            if stripped != "" {
              assert kept == Some(Utterance(actor, stripped));
              assert next == us + [Utterance(actor, stripped)];
              BlocksSnoc(us, Utterance(actor, stripped));
              MergeStep(bs, currentSpeaker, currentBlock, fullTranscript, Utterance(actor, stripped));
              bs := Extend(bs, Utterance(actor, stripped));
              if actor != currentSpeaker {
                if currentSpeaker.Some? {
                  fullTranscript := fullTranscript + [Render(Line(currentSpeaker.value, currentBlock))];
                }
                currentSpeaker := actor;
                currentBlock := [stripped];
              } else {
                currentBlock := currentBlock + [stripped];
              }
            }
          }
      }
      i := i + 1;
    }
    MergeFinish(bs, currentSpeaker, currentBlock, fullTranscript);
    if currentSpeaker.Some? && currentSpeaker.value != "" && currentBlock != [] {
      fullTranscript := fullTranscript + [Render(Line(currentSpeaker.value, currentBlock))];
    }
    assert a[..a.Length] == a[..];
    transcript := Join(fullTranscript, "\n");
  }

  /** The row written for a simulation whose item list held `items` before it was sorted. */
  function RowOf(sim: Simulation, items: seq<AudioItem>): ProcessedRow {
    ProcessedRow(sim.simulationId, sim.company, MergedTranscript(SortByKey(items)))
  }

  /** One simulation: sort its items in place, then merge them. */
  method ProcessSimulation(sim: Simulation) returns (row: ProcessedRow)
    modifies sim.audioItems
    ensures sim.audioItems[..] == SortByKey(old(sim.audioItems[..]))
    ensures row == RowOf(sim, old(sim.audioItems[..]))
  {
    SortItems(sim.audioItems);
    var transcript := MergeDialogue(sim.audioItems);
    row := ProcessedRow(sim.simulationId, sim.company, transcript);
  }

  /** process_transcripts: one row per simulation, in order; every item list is left sorted. */
  method ProcessTranscripts(simulations: seq<Simulation>) returns (processed: seq<ProcessedRow>)
    requires forall i, j :: 0 <= i < j < |simulations| ==> simulations[i].audioItems != simulations[j].audioItems
    modifies set sim | sim in simulations :: sim.audioItems
    ensures |processed| == |simulations|
    ensures forall i :: 0 <= i < |simulations| ==>
      simulations[i].audioItems[..] == SortByKey(old(simulations[i].audioItems[..])) &&
      processed[i] == RowOf(simulations[i], old(simulations[i].audioItems[..]))
  {
    processed := [];
    var i := 0;
    while i < |simulations|
      invariant 0 <= i <= |simulations|
      invariant |processed| == i
      invariant forall k :: 0 <= k < i ==>
        simulations[k].audioItems[..] == SortByKey(old(simulations[k].audioItems[..])) &&
        processed[k] == RowOf(simulations[k], old(simulations[k].audioItems[..]))
      invariant forall k :: i <= k < |simulations| ==>
        simulations[k].audioItems[..] == old(simulations[k].audioItems[..])
    {
      var row := ProcessSimulation(simulations[i]);
      processed := processed + [row];
      i := i + 1;
    }
  }
}
