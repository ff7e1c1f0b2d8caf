/**
 * FewShotGenerator: classify the query, narrow the knowledge base by a keyword rule
 * chosen from the category label, pick one transcript of the narrowed table at random,
 * summarise a character window of it and split the summary into action steps.
 *
 * The classifier, the summarizer and the random draw are parameters: the model sees
 * only what they return.
 */
module Generator {
  import opened Wrappers
  import opened Text

  /** One row of the knowledge base. A missing (NaN) company is None. */
  datatype Row = Row(simulationId: string, company: Option<string>, fullTranscript: string)

  /** The dictionary generate_steps returns. */
  datatype PlanResult = PlanResult(category: string, reason: string, steps: seq<string>)

  /** The candidate labels handed to the classifier, in this order. */
  const Categories: seq<string> :=
    ["Insurance Claim", "Payment Update", "Order Status", "Flight Booking", "General Inquiry"]

  /** Zero-shot classification: the labels ranked best first, or the error the model raised. */
  type Classifier = (string, seq<string>) -> Result<seq<string>, string>

  /** Summarization of a text: the summary, or the message of the exception it raised. */
  type Summarizer = string -> Result<string, string>

  /** DataFrame.sample(1): the index of the row drawn from a table. */
  type Sampler = seq<Row> -> nat

  /** A random draw always lands on a row of a non-empty table. */
  ghost predicate ValidSampler(sample: Sampler) {
    forall rows: seq<Row> :: rows != [] ==> sample(rows) < |rows|
  }

  /** get_category: the top label, or the failure that propagates to the caller. */
  function GetCategory(classifier: Classifier, query: string): (r: Result<string, string>)
    ensures r.Success? <==> classifier(query, Categories).Success? && classifier(query, Categories).value != []
    ensures r.Success? ==> r.value == classifier(query, Categories).value[0]
  {
    match classifier(query, Categories)
    case Failure(e) => Failure(e)
    case Success(labels) => if labels == [] then Failure("list index out of range") else Success(labels[0])
  }

  /** Which company keywords a category label selects. */
  datatype Rule = InsuranceRule | PaymentRule | FlightRule | WholeTable

  /** The label tests, in the order they are made; no other label narrows the table. */
  function RuleFor(category: string): Rule
  {
    if Contains(category, "Insurance") then InsuranceRule
    else if Contains(category, "Payment") then PaymentRule
    else if Contains(category, "Flight") then FlightRule
    else WholeTable
  }

  /** The Insurance test comes first, and only a label with none of the three keywords falls through to the whole table. */
  lemma RuleTests(category: string)
    ensures Contains(category, "Insurance") ==> RuleFor(category) == InsuranceRule
    ensures RuleFor(category) == WholeTable <==>
      !Contains(category, "Insurance") && !Contains(category, "Payment") && !Contains(category, "Flight")
  {
  }

  /** The literal alternatives of each rule's pattern. */
  function Keywords(rule: Rule): (keywords: seq<string>)
    requires rule != WholeTable
    ensures |keywords| == 2 && forall k :: k in keywords ==> |k| >= 5
  {
    match rule
    case InsuranceRule => ["Insurance", "Claim"]
    case PaymentRule => ["Credit", "Payment"]
    case FlightRule => ["Flight", "Airline"]
  }

  /** The company tag contains one of the keywords, ignoring case; a missing tag never matches. */
  predicate Matches(row: Row, keywords: seq<string>)
    ensures Matches(row, keywords) ==> row.company.Some? && keywords != []
  {
    row.company.Some? && exists k :: k in keywords && ContainsIgnoreCase(row.company.value, k)
  }

  /** The rows whose company matches, in table order. */
  function KeywordFilter(df: seq<Row>, keywords: seq<string>): (subset: seq<Row>)
    ensures |subset| <= |df|
    ensures forall row :: row in subset <==> row in df && Matches(row, keywords)
  {
    if df == [] then []
    else (if Matches(df[0], keywords) then [df[0]] else []) + KeywordFilter(df[1..], keywords)
  }

  /** The table the random pick draws from: the keyword subset, widened to the whole table when empty. */
  function Candidates(df: seq<Row>, category: string): (subset: seq<Row>)
    ensures RuleFor(category) == WholeTable ==> subset == df
    ensures RuleFor(category) != WholeTable ==>
      if exists row :: row in df && Matches(row, Keywords(RuleFor(category)))
      then forall row :: row in subset <==> row in df && Matches(row, Keywords(RuleFor(category)))
      else subset == df
    ensures subset == [] <==> df == []
  {
    var rule := RuleFor(category);
    var subset := if rule == WholeTable then df else KeywordFilter(df, Keywords(rule));
    assert subset != [] ==> subset[0] in subset;
    if subset == [] then df else subset
  }

  /** find_best_match_transcript: the transcript of a randomly drawn candidate row, or "" for an empty table. */
  function FindBestMatchTranscript(df: seq<Row>, category: string, sample: Sampler): (transcript: string)
    requires ValidSampler(sample)
    ensures df == [] ==> transcript == ""
    ensures df != [] ==> exists row :: row in df && transcript == row.fullTranscript
    ensures RuleFor(category) != WholeTable && (exists row :: row in df && Matches(row, Keywords(RuleFor(category)))) ==>
      exists row :: row in df && Matches(row, Keywords(RuleFor(category))) && transcript == row.fullTranscript
  {
    var subset := Candidates(df, category);
    if subset == [] then "" else subset[sample(subset)].fullTranscript
  }

  /** A draw that lands on index `i` of the candidates yields that row's transcript. */
  lemma DrawnRow(df: seq<Row>, category: string, sample: Sampler, i: nat)
    requires ValidSampler(sample)
    requires i < |Candidates(df, category)| && sample(Candidates(df, category)) == i
    ensures FindBestMatchTranscript(df, category, sample) == Candidates(df, category)[i].fullTranscript
  {
  }

  /** Some random draw lands on any given index of a non-empty table. */
  lemma DrawIndex(rows: seq<Row>, i: nat)
    requires i < |rows|
    ensures exists sample: Sampler :: ValidSampler(sample) && sample(rows) == i
  {
    var sample: Sampler := table => if i < |table| then i else 0;
    assert ValidSampler(sample);
    assert sample(rows) == i;
  }

  /** Every candidate row is a possible outcome of the random pick. */
  lemma AnyCandidateCanBeDrawn(df: seq<Row>, category: string, row: Row)
    requires row in Candidates(df, category)
    ensures exists sample :: ValidSampler(sample) && FindBestMatchTranscript(df, category, sample) == row.fullTranscript
  {
    var subset := Candidates(df, category);
    var i :| 0 <= i < |subset| && subset[i] == row;
    DrawIndex(subset, i);
    var sample: Sampler :| ValidSampler(sample) && sample(subset) == i;
    DrawnRow(df, category, sample, i);
  }

  /** A keyword whose character the label lacks cannot be in the label. */
  lemma {:induction false} NotContainedWithout(s: string, sub: string, c: char)
    requires c in sub && c !in s
    ensures !Contains(s, sub)
    decreases |s|
  {
    if |sub| <= |s| {
      assert c !in s[..|sub|];
    }
    if |s| > 0 {
      assert c !in s[1..];
      NotContainedWithout(s[1..], sub, c);
    }
  }

  /** A label lacking one letter of each keyword falls through to the whole table. */
  lemma WholeTableWithout(name: string, i: char, p: char, f: char)
    requires i in "Insurance" && i !in name
    requires p in "Payment" && p !in name
    requires f in "Flight" && f !in name
    ensures RuleFor(name) == WholeTable
  {
    NotContainedWithout(name, "Insurance", i);
    NotContainedWithout(name, "Payment", p);
    NotContainedWithout(name, "Flight", f);
  }

  /** The first test: a label starting with "Insurance" selects the Insurance keywords. */
  lemma InsuranceFirst(name: string)
    requires StartsWith(name, "Insurance")
    ensures RuleFor(name) == InsuranceRule
  {
  }

  /** The second test: a label starting with "Payment" and lacking a letter of "Insurance". */
  lemma PaymentSecond(name: string, i: char)
    requires StartsWith(name, "Payment") && i in "Insurance" && i !in name
    ensures RuleFor(name) == PaymentRule
  {
    NotContainedWithout(name, "Insurance", i);
  }

  /** The third test: a label starting with "Flight" and lacking a letter of each earlier keyword. */
  lemma FlightThird(name: string, i: char, p: char)
    requires StartsWith(name, "Flight") && i in "Insurance" && i !in name && p in "Payment" && p !in name
    ensures RuleFor(name) == FlightRule
  {
    NotContainedWithout(name, "Insurance", i);
    NotContainedWithout(name, "Payment", p);
  }

  lemma InsuranceClaimRule()
    ensures RuleFor("Insurance Claim") == InsuranceRule
  {
    InsuranceFirst("Insurance Claim");
  }

  lemma PaymentUpdateRule()
    ensures RuleFor("Payment Update") == PaymentRule
  {
    PaymentSecond("Payment Update", 'I');
  }

  /** There is no Order branch: Order Status falls through to the whole table. */
  lemma OrderStatusRule()
    ensures RuleFor("Order Status") == WholeTable
  {
    WholeTableWithout("Order Status", 'I', 'P', 'F');
  }

  lemma FlightBookingRule()
    ensures RuleFor("Flight Booking") == FlightRule
  {
    FlightThird("Flight Booking", 'I', 'P');
  }

  lemma GeneralInquiryRule()
    ensures RuleFor("General Inquiry") == WholeTable
  {
    WholeTableWithout("General Inquiry", 'c', 'P', 'F');
  }

  /** The five labels: only three narrow the table; Order Status and General Inquiry use the whole table. */
  lemma LabelRules(labels: seq<string>)
    requires labels == Categories
    ensures |labels| == 5
    ensures RuleFor(labels[0]) == InsuranceRule
    ensures RuleFor(labels[1]) == PaymentRule
    ensures RuleFor(labels[2]) == WholeTable
    ensures RuleFor(labels[3]) == FlightRule
    ensures RuleFor(labels[4]) == WholeTable
  {
    assert labels[0] == "Insurance Claim" && labels[1] == "Payment Update" && labels[2] == "Order Status";
    assert labels[3] == "Flight Booking" && labels[4] == "General Inquiry";
    InsuranceClaimRule();
    PaymentUpdateRule();
    OrderStatusRule();
    FlightBookingRule();
    GeneralInquiryRule();
  }

  /** The number of characters the summarizer is given at most. */
  const WindowSize: nat := 1024

  /** int(n * 0.2), which is n / 5 for every length far below 2^50. */
  function WindowStart(n: nat): nat {
    n / 5
  }

  /** The slice [start : start + 1024] of the transcript, cut short at its end. */
  function Window(t: string): (w: string)
    ensures |w| <= WindowSize
    ensures WindowStart(|t|) + |w| <= |t| && w == t[WindowStart(|t|)..WindowStart(|t|) + |w|]
    ensures |w| == WindowSize || WindowStart(|t|) + |w| == |t|
    ensures w == [] <==> t == []
  {
    var start := WindowStart(|t|);
    t[start..if start + WindowSize < |t| then start + WindowSize else |t|]
  }

  /** The fragments longer than 10 characters before stripping, each then stripped, in order. */
  function KeepSteps(fragments: seq<string>): (steps: seq<string>)
    ensures |steps| <= |fragments|
  {
    if fragments == [] then []
    else (if |fragments[0]| > 10 then [Strip(fragments[0])] else []) + KeepSteps(fragments[1..])
  }

  /** The comprehension that turns a summary into steps. */
  function SplitSteps(summary: string): (steps: seq<string>)
    ensures |steps| <= |Split(summary, '.')|
  {
    KeepSteps(Split(summary, '.'))
  }

  /** Stripping only removes characters. */
  lemma StripKeepsAbsent(s: string, c: char)
    requires c !in s
    ensures c !in Strip(s)
  {
    var r := Strip(s);
    var l := LeadingSpace(s);
    forall k | 0 <= k < |r| ensures r[k] != c {
      assert r[k] == s[l + k];
    }
  }

  lemma {:induction false} KeepStepsWithout(fragments: seq<string>, c: char)
    requires forall k :: 0 <= k < |fragments| ==> c !in fragments[k]
    ensures forall k :: 0 <= k < |KeepSteps(fragments)| ==> c !in KeepSteps(fragments)[k]
  {
    if fragments != [] {
      KeepStepsWithout(fragments[1..], c);
      StripKeepsAbsent(fragments[0], c);
    }
  }

  /** No step contains a period. */
  lemma StepsHaveNoPeriod(summary: string)
    ensures forall k :: 0 <= k < |SplitSteps(summary)| ==> '.' !in SplitSteps(summary)[k]
  {
    KeepStepsWithout(Split(summary, '.'), '.');
  }

  lemma {:induction false} KeepStepsOrigin(fragments: seq<string>)
    ensures forall step :: step in KeepSteps(fragments) ==>
      exists f :: f in fragments && |f| > 10 && step == Strip(f)
  {
    if fragments != [] {
      KeepStepsOrigin(fragments[1..]);
      forall step | step in KeepSteps(fragments)
        ensures exists f :: f in fragments && |f| > 10 && step == Strip(f)
      {
        if step !in KeepSteps(fragments[1..]) {
          assert step == Strip(fragments[0]) && |fragments[0]| > 10;
        } else {
          var f :| f in fragments[1..] && |f| > 10 && step == Strip(f);
          assert f in fragments;
        }
      }
    }
  }

  /** Every step is a period-separated fragment of the summary, longer than 10 characters, stripped. */
  lemma StepsComeFromLongFragments(summary: string)
    ensures forall step :: step in SplitSteps(summary) ==>
      exists f :: f in Split(summary, '.') && |f| > 10 && step == Strip(f)
  {
    KeepStepsOrigin(Split(summary, '.'));
  }

  /** Each index shifted by one: positions in a list seen from its tail. */
  function Shift(idx: seq<nat>): (r: seq<nat>)
    ensures |r| == |idx|
    ensures forall j :: 0 <= j < |idx| ==> r[j] == idx[j] + 1
  {
    seq(|idx|, j requires 0 <= j < |idx| => idx[j] + 1)
  }

  /** Each step is `f` of a fragment longer than 10 characters, at the position `idx` gives. */
  ghost predicate StepsAt(fragments: seq<string>, steps: seq<string>, idx: seq<nat>, f: string -> string) {
    |idx| == |steps| &&
    forall j :: 0 <= j < |idx| ==> idx[j] < |fragments| && |fragments[idx[j]]| > 10 && steps[j] == f(fragments[idx[j]])
  }

  ghost predicate Increasing(idx: seq<nat>) {
    forall i, j :: 0 <= i < j < |idx| ==> idx[i] < idx[j]
  }

  /** Every fragment longer than 10 characters has its position listed. */
  ghost predicate CoversLong(fragments: seq<string>, idx: seq<nat>) {
    forall k :: 0 <= k < |fragments| && |fragments[k]| > 10 ==> k in idx
  }

  /**
   * `idx` lists, in increasing order, exactly the positions of the fragments longer than
   * 10 characters, and each step is the strip of the fragment at its position.
   */
  ghost predicate KeptInOrder(fragments: seq<string>, steps: seq<string>, idx: seq<nat>) {
    StepsAt(fragments, steps, idx, Strip) && Increasing(idx) && CoversLong(fragments, idx)
  }

  /** The tail's steps keep their fragments when the positions are shifted past the head. */
  lemma StepsAtShift(fragments: seq<string>, rest: seq<string>, idx: seq<nat>, f: string -> string)
    requires fragments != [] && StepsAt(fragments[1..], rest, idx, f)
    ensures StepsAt(fragments, rest, Shift(idx), f)
  {
    var tail, shifted := fragments[1..], Shift(idx);
    forall j | 0 <= j < |shifted|
      ensures shifted[j] < |fragments| && |fragments[shifted[j]]| > 10 && rest[j] == f(fragments[shifted[j]])
    {
      assert fragments[shifted[j]] == tail[idx[j]];
    }
  }

  /** A long head fragment's step goes first, at position 0. */
  lemma StepsAtHead(fragments: seq<string>, rest: seq<string>, idx: seq<nat>, f: string -> string)
    requires fragments != [] && |fragments[0]| > 10 && StepsAt(fragments, rest, Shift(idx), f)
    ensures StepsAt(fragments, [f(fragments[0])] + rest, [0] + Shift(idx), f)
  {
    var steps, all := [f(fragments[0])] + rest, [0] + Shift(idx);
    forall j | 0 <= j < |all|
      ensures all[j] < |fragments| && |fragments[all[j]]| > 10 && steps[j] == f(fragments[all[j]])
    {
      if j > 0 {
        assert all[j] == Shift(idx)[j - 1] && steps[j] == rest[j - 1];
      }
    }
  }

  lemma CoversLongCons(fragments: seq<string>, idx: seq<nat>)
    requires fragments != [] && CoversLong(fragments[1..], idx)
    ensures CoversLong(fragments, (if |fragments[0]| > 10 then [0] else []) + Shift(idx))
  {
    var tail := fragments[1..];
    var head: seq<nat> := if |fragments[0]| > 10 then [0] else [];
    var all := head + Shift(idx);
    forall k | 0 <= k < |fragments| && |fragments[k]| > 10 ensures k in all {
      if k > 0 {
        assert tail[k - 1] == fragments[k];
        var m :| 0 <= m < |idx| && idx[m] == k - 1;
        assert all[|head| + m] == k;
      }
    }
  }

  lemma IncreasingCons(idx: seq<nat>, first: bool)
    requires Increasing(idx)
    ensures Increasing((if first then [0] else []) + Shift(idx))
  {
  }

  /** The positions kept from the tail, seen from the whole list. */
  lemma KeptInOrderCons(fragments: seq<string>, rest: seq<string>, idx: seq<nat>, f: string -> string,
                        steps: seq<string>, all: seq<nat>)
    requires fragments != [] && StepsAt(fragments[1..], rest, idx, f)
    requires Increasing(idx) && CoversLong(fragments[1..], idx)
    requires steps == (if |fragments[0]| > 10 then [f(fragments[0])] else []) + rest
    requires all == (if |fragments[0]| > 10 then [0] else []) + Shift(idx)
    ensures StepsAt(fragments, steps, all, f) && Increasing(all) && CoversLong(fragments, all)
  {
    CoversLongCons(fragments, idx);
    IncreasingCons(idx, |fragments[0]| > 10);
    StepsAtShift(fragments, rest, idx, f);
    if |fragments[0]| > 10 {
      StepsAtHead(fragments, rest, idx, f);
    } else {
      assert all == Shift(idx) && steps == rest;
    }
  }

  lemma {:induction false} KeepStepsInOrder(fragments: seq<string>)
    ensures exists idx :: KeptInOrder(fragments, KeepSteps(fragments), idx)
  {
    if fragments == [] {
      assert KeptInOrder(fragments, KeepSteps(fragments), []);
    } else {
      var rest := KeepSteps(fragments[1..]);
      KeepStepsInOrder(fragments[1..]);
      var idx :| KeptInOrder(fragments[1..], rest, idx);
      var steps := (if |fragments[0]| > 10 then [Strip(fragments[0])] else []) + rest;
      var all := (if |fragments[0]| > 10 then [0] else []) + Shift(idx);
      KeptInOrderCons(fragments, rest, idx, Strip, steps, all);
      assert KeepSteps(fragments) == steps;
      assert KeptInOrder(fragments, KeepSteps(fragments), all);
    }
  }

  /**
   * The steps are exactly the stripped fragments longer than 10 characters, every one of
   * them, in summary order.
   */
  lemma LongFragmentsKeptInOrder(summary: string)
    ensures exists idx :: KeptInOrder(Split(summary, '.'), SplitSteps(summary), idx)
  {
    var fragments := Split(summary, '.');
    KeepStepsInOrder(fragments);
    var idx :| KeptInOrder(fragments, KeepSteps(fragments), idx);
    assert KeptInOrder(fragments, SplitSteps(summary), idx);
  }

  /** Splitting off the first sentence: it becomes the first step when it is long enough. */
  lemma SplitStepsCons(a: string, rest: string)
    requires '.' !in a
    ensures SplitSteps(a + "." + rest) == (if |a| > 10 then [Strip(a)] else []) + SplitSteps(rest)
  {
    assert a + "." + rest == a + ['.'] + rest;
    SplitFirst(a, '.', rest);
    var fs := Split(a + "." + rest, '.');
    assert fs[1..] == Split(rest, '.');
  }

  /** Two period-terminated sentences split into the two sentences and an empty tail. */
  lemma SplitTwoSentences(a: string, b: string, summary: string)
    requires '.' !in a && '.' !in b && summary == a + "." + b + "."
    ensures Split(summary, '.') == [a, b, ""]
  {
    assert summary == a + ['.'] + (b + ['.'] + "");
    SplitFirst(a, '.', b + ['.'] + "");
    SplitFirst(b, '.', "");
    SplitNone("", '.');
  }

  lemma KeepThree(a: string, b: string)
    ensures KeepSteps([a, b, ""]) ==
      (if |a| > 10 then [Strip(a)] else []) + (if |b| > 10 then [Strip(b)] else [])
  {
    assert [a, b, ""][1..] == [b, ""];
    assert [b, ""][1..] == [""];
    assert KeepSteps([""]) == [];
  }

  /** Two sentences longer than 10 characters give two stripped steps, in order; the empty tail is dropped. */
  lemma TwoSentenceSteps(a: string, b: string)
    requires '.' !in a && '.' !in b && |a| > 10 && |b| > 10
    ensures SplitSteps(a + "." + b + ".") == [Strip(a), Strip(b)]
  {
    SplitTwoSentences(a, b, a + "." + b + ".");
    KeepThree(a, b);
  }

  /** A first sentence of at most 10 characters ("Ok") is dropped. */
  lemma ShortSentenceDropped(a: string, b: string)
    requires '.' !in a && '.' !in b && |a| <= 10 && |b| > 10
    ensures SplitSteps(a + "." + b + ".") == [Strip(b)]
  {
    SplitTwoSentences(a, b, a + "." + b + ".");
    KeepThree(a, b);
  }

  /** The length test comes before the strip: a blank fragment of 11 or more characters is kept as an empty step. */
  lemma BlankStepKept(a: string)
    requires |a| > 10 && forall k :: 0 <= k < |a| ==> IsSpace(a[k])
    ensures SplitSteps(a + ".") == [""]
  {
    assert '.' !in a by {
      forall k | 0 <= k < |a| ensures a[k] != '.' {
        assert IsSpace(a[k]);
      }
    }
    assert a + "." == a + ['.'] + "";
    SplitFirst(a, '.', "");
    SplitNone("", '.');
    StripEmpty(a);
    assert [a, ""][1..] == [""];
    assert KeepSteps([""]) == [];
  }

  /** One blank before an unpadded sentence is stripped away. */
  lemma StripAfterBlank(w: string)
    requires w != [] && !IsSpace(w[0]) && !IsSpace(w[|w| - 1])
    ensures Strip(" " + w) == w
  {
    StripOneLeading(' ', w);
  }

  /** The summary has no sentences left to give. */
  lemma SplitStepsEmpty()
    ensures SplitSteps("") == []
  {
    assert Split("", '.') == [""];
  }

  /** A sentence that is its own step: no period, longer than 10 characters, no whitespace at either end. */
  predicate PlainSentence(a: string) {
    '.' !in a && |a| > 10 && !IsSpace(a[0]) && !IsSpace(a[|a| - 1])
  }

  /** A plain first sentence is the first step. */
  lemma PlainCons(a: string, rest: string)
    requires PlainSentence(a)
    ensures SplitSteps(a + "." + rest) == [a] + SplitSteps(rest)
  {
    SplitStepsCons(a, rest);
    StripUnpadded(a);
  }

  /** A plain sentence after one blank is the next step. */
  lemma BlankCons(b: string, rest: string)
    requires PlainSentence(b)
    ensures SplitSteps(" " + b + "." + rest) == [b] + SplitSteps(rest)
  {
    assert '.' !in " " + b by {
      assert forall k :: 1 <= k < |" " + b| ==> (" " + b)[k] == b[k - 1];
    }
    SplitStepsCons(" " + b, rest);
    StripAfterBlank(b);
  }

  /** Two plain sentences written "a. b." come back as the two steps. */
  lemma TwoPlainSentences(a: string, b: string)
    requires PlainSentence(a) && PlainSentence(b)
    ensures SplitSteps(a + ". " + b + ".") == [a, b]
  {
    assert a + ". " + b + "." == a + "." + (" " + b + "." + "");
    PlainCons(a, " " + b + "." + "");
    BlankCons(b, "");
    SplitStepsEmpty();
  }

  /** Three plain sentences written "a. b. c." come back as the three steps. */
  lemma ThreePlainSentences(a: string, b: string, c: string)
    requires PlainSentence(a) && PlainSentence(b) && PlainSentence(c)
    ensures SplitSteps(a + ". " + b + ". " + c + ".") == [a, b, c]
  {
    var tail := " " + c + "." + "";
    assert a + ". " + b + ". " + c + "." == a + "." + (" " + b + "." + tail);
    PlainCons(a, " " + b + "." + tail);
    BlankCons(b, tail);
    BlankCons(c, "");
    SplitStepsEmpty();
  }

  /** A short first sentence written "a. b." is dropped and only the plain one is kept. */
  lemma ShortThenPlain(a: string, b: string)
    requires '.' !in a && |a| <= 10 && PlainSentence(b)
    ensures SplitSteps(a + ". " + b + ".") == [b]
  {
    assert a + ". " + b + "." == a + "." + (" " + b + "." + "");
    SplitStepsCons(a, " " + b + "." + "");
    BlankCons(b, "");
    SplitStepsEmpty();
  }

  // The example summaries below are written as concatenations of their sentences and separators, so that
  // they match the general lemmas' statements term for term. Written as one literal, a summary would first
  // have to be proved equal to that concatenation character by character, which costs the solver far more.

  /** "Verify the card. Update billing info." gives ["Verify the card", "Update billing info"]. */
  lemma TwoStepExample()
    ensures SplitSteps("Verify the card" + ". " + "Update billing info" + ".") == ["Verify the card", "Update billing info"]
  {
    TwoPlainSentences("Verify the card", "Update billing info");
  }

  /**
   * "Verify the card. Update billing info. Confirm with customer." gives
   * ["Verify the card", "Update billing info", "Confirm with customer"].
   */
  lemma ThreeStepExample()
    ensures SplitSteps("Verify the card" + ". " + "Update billing info" + ". " + "Confirm with customer" + ".")
      == ["Verify the card", "Update billing info", "Confirm with customer"]
  {
    ThreePlainSentences("Verify the card", "Update billing info", "Confirm with customer");
  }

  /** "Ok. Proceed with the refund process fully." gives only ["Proceed with the refund process fully"]. */
  lemma ShortStepExample()
    ensures SplitSteps("Ok" + ". " + "Proceed with the refund process fully" + ".") == ["Proceed with the refund process fully"]
  {
    ShortThenPlain("Ok", "Proceed with the refund process fully");
  }

  const NoDataStep := "No historical data found for this category."
  const NoDataReason := "Insufficient data."
  const ExtractFailedStep := "Could not extract specific steps from history."
  const ModelErrorPrefix := "Error in local model: "

  function SuccessReason(category: string): (reason: string)
    ensures |reason| == |category| + 41
    ensures reason[14..14 + |category|] == category
  {
    "Identified as " + category + " based on keyword analysis."
  }

  /** The steps and reason for a retrieved transcript: a sentinel when it is empty or the summarizer fails. */
  function ExtractPlan(category: string, transcript: string, summarizer: Summarizer): (plan: PlanResult)
    ensures plan.category == category
    ensures transcript == "" ==> plan.steps == [NoDataStep] && plan.reason == NoDataReason
    ensures transcript != "" && summarizer(Window(transcript)).Success? ==>
      plan.steps == SplitSteps(summarizer(Window(transcript)).value) && plan.reason == SuccessReason(category)
    ensures transcript != "" && summarizer(Window(transcript)).Failure? ==>
      plan.steps == [ExtractFailedStep] && plan.reason == ModelErrorPrefix + summarizer(Window(transcript)).error
  {
    if transcript == "" then PlanResult(category, NoDataReason, [NoDataStep])
    else match summarizer(Window(transcript))
      case Success(summary) => PlanResult(category, SuccessReason(category), SplitSteps(summary))
      case Failure(e) => PlanResult(category, ModelErrorPrefix + e, [ExtractFailedStep])
  }

  /** generate_steps: a plan whenever classification succeeds; a classification failure propagates. */
  function GenerateSteps(query: string, df: seq<Row>, classifier: Classifier, summarizer: Summarizer, sample: Sampler)
    : (r: Result<PlanResult, string>)
    requires ValidSampler(sample)
    ensures r.Success? <==> GetCategory(classifier, query).Success?
    ensures r.Success? ==> r.value.category == classifier(query, Categories).value[0]
    ensures r.Success? ==>
      r.value == ExtractPlan(r.value.category, FindBestMatchTranscript(df, r.value.category, sample), summarizer)
  {
    match GetCategory(classifier, query)
    case Failure(e) => Failure(e)
    case Success(category) =>
      Success(ExtractPlan(category, FindBestMatchTranscript(df, category, sample), summarizer))
  }

  /** With no usable transcript the summarizer plays no part in the result. */
  lemma SummarizerNotCalledWithoutTranscript(query: string, df: seq<Row>, classifier: Classifier,
                                             s1: Summarizer, s2: Summarizer, sample: Sampler)
    requires ValidSampler(sample)
    requires GetCategory(classifier, query).Success?
    requires FindBestMatchTranscript(df, GetCategory(classifier, query).value, sample) == ""
    ensures GenerateSteps(query, df, classifier, s1, sample) == GenerateSteps(query, df, classifier, s2, sample)
    ensures GenerateSteps(query, df, classifier, s1, sample).value.steps == [NoDataStep]
  {
  }

  /** An empty knowledge base still yields a plan, with the category set and the no-data sentinel. */
  lemma EmptyCorpusGivesNoData(query: string, classifier: Classifier, summarizer: Summarizer, sample: Sampler)
    requires ValidSampler(sample)
    requires GetCategory(classifier, query).Success?
    ensures GenerateSteps(query, [], classifier, summarizer, sample)
      == Success(PlanResult(GetCategory(classifier, query).value, NoDataReason, [NoDataStep]))
  {
  }

  /** A plan either succeeded, with a reason naming its category and no step holding a period, or is one of the two single-step sentinels. */
  lemma PlanStepsShape(query: string, df: seq<Row>, classifier: Classifier, summarizer: Summarizer, sample: Sampler)
    requires ValidSampler(sample)
    requires GenerateSteps(query, df, classifier, summarizer, sample).Success?
    ensures var plan := GenerateSteps(query, df, classifier, summarizer, sample).value;
      (plan.reason == SuccessReason(plan.category) &&
       forall k :: 0 <= k < |plan.steps| ==> '.' !in plan.steps[k])
      || plan.steps == [NoDataStep] || plan.steps == [ExtractFailedStep]
  {
    var plan := GenerateSteps(query, df, classifier, summarizer, sample).value;
    var t := FindBestMatchTranscript(df, plan.category, sample);
    if t != "" && summarizer(Window(t)).Success? {
      StepsHaveNoPeriod(summarizer(Window(t)).value);
    }
  }

  /** A company tag equal to a keyword matches it. */
  lemma KeywordTagMatches(row: Row, keywords: seq<string>, k: string)
    requires k in keywords && row.company == Some(k)
    ensures Matches(row, keywords)
  {
    assert StartsWith(Lower(k), Lower(k));
  }

  lemma InsuranceLetters()
    ensures forall k :: 0 <= k < |"Insurance"| ==> LowerChar("Insurance"[k]) != 'd' && LowerChar("Insurance"[k]) != 'p'
  {
  }

  lemma PaymentKeywordLetters()
    ensures 'd' in Lower("Credit") && 'p' in Lower("Payment")
  {
    assert Lower("Credit")[3] == 'd';
    assert Lower("Payment")[0] == 'p';
  }

  /** Lower-casing a tag with no letter d or p, in either case, leaves no d or p. */
  lemma LowerLacksDP(tag: string)
    requires forall k :: 0 <= k < |tag| ==> LowerChar(tag[k]) != 'd' && LowerChar(tag[k]) != 'p'
    ensures 'd' !in Lower(tag) && 'p' !in Lower(tag)
  {
    var low := Lower(tag);
    forall k | 0 <= k < |low| ensures low[k] != 'd' && low[k] != 'p' {
      assert low[k] == LowerChar(tag[k]);
    }
  }

  /** Text without d and p contains neither lower-cased Payment keyword. */
  lemma LacksPaymentKeywords(low: string)
    requires 'd' !in low && 'p' !in low
    ensures !Contains(low, Lower("Credit")) && !Contains(low, Lower("Payment"))
  {
    PaymentKeywordLetters();
    NotContainedWithout(low, Lower("Credit"), 'd');
    NotContainedWithout(low, Lower("Payment"), 'p');
  }

  /** A row whose tag contains neither of two keywords, ignoring case, does not match them. */
  lemma NeitherKeywordMatches(row: Row, first: string, second: string)
    requires row.company.Some?
    requires !ContainsIgnoreCase(row.company.value, first) && !ContainsIgnoreCase(row.company.value, second)
    ensures !Matches(row, [first, second])
  {
  }

  /** A tag with no letter d or p, in either case, matches neither Payment keyword. */
  lemma TagNotPayment(tag: string, row: Row)
    requires row.company == Some(tag)
    requires forall k :: 0 <= k < |tag| ==> LowerChar(tag[k]) != 'd' && LowerChar(tag[k]) != 'p'
    ensures !Matches(row, Keywords(PaymentRule))
  {
    LowerLacksDP(tag);
    LacksPaymentKeywords(Lower(tag));
    NeitherKeywordMatches(row, "Credit", "Payment");
  }

  /** An "Insurance" tag matches neither Payment keyword, whatever the case. */
  lemma InsuranceTagNotPayment(row: Row)
    requires row.company == Some("Insurance")
    ensures !Matches(row, Keywords(PaymentRule))
  {
    InsuranceLetters();
    TagNotPayment("Insurance", row);
  }

  /** Of two rows, a filter that keeps the first and not the second yields the first alone. */
  lemma FilterPair(a: Row, b: Row, keywords: seq<string>)
    requires Matches(a, keywords) && !Matches(b, keywords)
    ensures KeywordFilter([a, b], keywords) == [a]
  {
    assert [a, b][1..] == [b];
    assert [b][1..] == [];
  }

  /** The Payment keywords keep the Payment-tagged case and drop the Insurance-tagged one. */
  lemma PaymentFilter(pay: Row, ins: Row)
    requires pay.company == Some("Payment") && ins.company == Some("Insurance")
    ensures KeywordFilter([pay, ins], Keywords(PaymentRule)) == [pay]
  {
    var kw := Keywords(PaymentRule);
    KeywordTagMatches(pay, kw, pay.company.value);
    InsuranceTagNotPayment(ins);
    FilterPair(pay, ins, kw);
  }

  /** With one Payment-tagged and one Insurance-tagged case, Payment Update narrows the table to the first. */
  lemma PaymentCandidates(pay: Row, ins: Row)
    requires pay.company == Some("Payment") && ins.company == Some("Insurance")
    ensures Candidates([pay, ins], "Payment Update") == [pay]
  {
    PaymentUpdateRule();
    PaymentFilter(pay, ins);
  }

  /** Whatever the random draw, the Payment-tagged case is the one retrieved for Payment Update. */
  lemma PaymentDraw(pay: Row, ins: Row, sample: Sampler)
    requires ValidSampler(sample)
    requires pay.company == Some("Payment") && ins.company == Some("Insurance")
    ensures FindBestMatchTranscript([pay, ins], "Payment Update", sample) == pay.fullTranscript
  {
    PaymentCandidates(pay, ins);
  }

  /** A query classified as Payment Update, over one Payment-tagged and one Insurance-tagged case, plans from the Payment case. */
  lemma PaymentScenario(query: string, classifier: Classifier, summarizer: Summarizer, sample: Sampler,
                        pay: Row, ins: Row)
    requires ValidSampler(sample)
    requires GetCategory(classifier, query).Success? && GetCategory(classifier, query).value == "Payment Update"
    requires pay.company == Some("Payment") && ins.company == Some("Insurance")
    ensures GenerateSteps(query, [pay, ins], classifier, summarizer, sample)
      == Success(ExtractPlan(GetCategory(classifier, query).value, pay.fullTranscript, summarizer))
  {
    PaymentDraw(pay, ins, sample);
  }
}
