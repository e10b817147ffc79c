/** The journal page helpers of `client/src/pages/Journal.tsx`: the insight labels shown
    beside the entries, the validation of a new entry, and appending a writing prompt. */
module Journal {
  import opened Optional
  import opened Seqs
  import opened Text
  import opened Schema
  import opened Tally
  import opened Ranking

  // ---------------------------------------------------------------------------
  // Insights (`getAIInsights`)

  /** How many labels of each kind are shown. */
  const TopCount: nat := 3

  /** The ranking key of a `[label, count]` pair. */
  function Frequency(p: (string, nat)): real {
    p.1 as real
  }

  /** `Object.entries(count).sort(([,a], [,b]) => b - a).slice(0, 3).map(([label]) => label)`
      for the frequency table of `xs`. */
  function TopLabels(xs: seq<string>): (r: seq<string>)
    ensures |r| <= TopCount
  {
    var ranked := SortDesc(Count(xs), Frequency);
    var n := if |ranked| < TopCount then |ranked| else TopCount;
    Labels(ranked[..n])
  }

  /** `getAIInsights`: nothing before the entries are loaded or when there are none, else
      the three most frequent themes followed by the three most frequent skills. */
  function Insights(entries: Option<seq<JournalEntry>>): (r: seq<string>)
    ensures entries.None? || |entries.value| == 0 ==> r == []
    ensures |r| <= 2 * TopCount
  {
    if entries.None? || |entries.value| == 0 then []
    else TopLabels(AllThemes(entries.value)) + TopLabels(AllSkills(entries.value))
  }

  /** In a table whose labels are distinct, every pair holds its label's count. */
  lemma {:induction false} PairLookup(t: FreqTable, k: nat)
    requires NoDups(Labels(t)) && k < |t|
    ensures Lookup(t, t[k].0) == t[k].1
  {
    if k > 0 {
      assert Labels(t[1..]) == Labels(t)[1..];
      assert t[k].0 != t[0].0 by {
        assert Labels(t)[0] == t[0].0 && Labels(t)[k] == t[k].0;
      }
      PairLookup(t[1..], k - 1);
    }
  }

  lemma {:induction false} NoDupsCountAtMostOne<T>(xs: seq<T>, x: T)
    requires NoDups(xs)
    ensures multiset(xs)[x] <= 1
  {
    if |xs| > 0 {
      assert xs == [xs[0]] + xs[1..];
      assert NoDups(xs[1..]) by {
        forall i, j | 0 <= i < j < |xs[1..]| ensures xs[1..][i] != xs[1..][j] {
          assert xs[1..][i] == xs[i + 1] && xs[1..][j] == xs[j + 1];
        }
      }
      NoDupsCountAtMostOne(xs[1..], x);
      if x == xs[0] {
        assert x !in xs[1..] by {
          forall i | 0 <= i < |xs[1..]| ensures xs[1..][i] != x {
            assert xs[1..][i] == xs[i + 1];
          }
        }
      }
    }
  }

  /** A rearrangement of a sequence without repeats has none either. */
  lemma PermutationNoDups<T>(xs: seq<T>, ys: seq<T>)
    requires NoDups(xs) && multiset(ys) == multiset(xs)
    ensures NoDups(ys)
  {
    forall i, j | 0 <= i < j < |ys| ensures ys[i] != ys[j] {
      if ys[i] == ys[j] {
        var x := ys[i];
        assert ys == ys[..j] + ys[j..];
        assert x in ys[..j] && x in ys[j..];
        assert multiset(ys)[x] == multiset(ys[..j])[x] + multiset(ys[j..])[x];
        NoDupsCountAtMostOne(xs, x);
      }
    }
  }

  /** A table whose labels are distinct has no repeated pair. */
  lemma DistinctLabelsDistinctPairs(t: FreqTable)
    requires NoDups(Labels(t))
    ensures NoDups(t)
  {
    forall i, j | 0 <= i < j < |t| ensures t[i] != t[j] {
      assert Labels(t)[i] == t[i].0 && Labels(t)[j] == t[j].0;
    }
  }

  /** A rearranged table keeps its labels distinct. */
  lemma PermutedLabelsDistinct(t: FreqTable, ranked: FreqTable)
    requires NoDups(Labels(t)) && multiset(ranked) == multiset(t)
    ensures NoDups(Labels(ranked))
  {
    DistinctLabelsDistinctPairs(t);
    PermutationNoDups(t, ranked);
    forall i, j | 0 <= i < j < |ranked| ensures Labels(ranked)[i] != Labels(ranked)[j] {
      assert ranked[i] in multiset(t) && ranked[j] in multiset(t);
      var ki :| 0 <= ki < |t| && t[ki] == ranked[i];
      var kj :| 0 <= kj < |t| && t[kj] == ranked[j];
      PairLookup(t, ki);
      PairLookup(t, kj);
    }
  }

  /** Every pair of a rearranged table holds its label's count in the original. */
  lemma PermutedCounts(t: FreqTable, ranked: FreqTable, k: nat)
    requires NoDups(Labels(t)) && multiset(ranked) == multiset(t) && k < |ranked|
    ensures ranked[k].1 == Lookup(t, ranked[k].0) && ranked[k].0 in Labels(t)
  {
    assert ranked[k] in multiset(t);
    var j :| 0 <= j < |t| && t[j] == ranked[k];
    PairLookup(t, j);
    assert Labels(t)[j] == t[j].0;
  }

  /** A rearranged table still lists every label. */
  lemma PermutedLabelsCovered(t: FreqTable, ranked: FreqTable, w: string)
    requires multiset(ranked) == multiset(t) && w in Labels(t)
    ensures w in Labels(ranked)
  {
    var j :| 0 <= j < |t| && Labels(t)[j] == w;
    assert t[j] in multiset(ranked);
    var k :| 0 <= k < |ranked| && ranked[k] == t[j];
    assert Labels(ranked)[k] == w;
  }

  /** What ranking a table by count and keeping its first `n` labels yields, for any
      table `t` with distinct labels and any descending rearrangement `ranked` of it. */
  predicate TopOf(t: FreqTable, r: seq<string>, n: nat) {
    && NoDups(r)
    && |r| == (if |t| < n then |t| else n)
    && (forall w :: w in r ==> w in Labels(t))
    && (forall i, j :: 0 <= i < j < |r| ==> Lookup(t, r[i]) >= Lookup(t, r[j]))
    && (forall w, v :: w in Labels(t) && w !in r && v in r ==> Lookup(t, v) >= Lookup(t, w))
  }

  lemma RankedPrefix(t: FreqTable, ranked: FreqTable, n: nat)
    requires NoDups(Labels(t)) && multiset(ranked) == multiset(t) && SortedDesc(ranked, Frequency)
    ensures var m := if |ranked| < n then |ranked| else n;
            TopOf(t, Labels(ranked[..m]), n)
  {
    var m := if |ranked| < n then |ranked| else n;
    RankedPrefixDistinct(t, ranked, m);
    RankedPrefixOrdered(t, ranked, m);
    RankedPrefixDominates(t, ranked, m);
  }

  lemma RankedPrefixDistinct(t: FreqTable, ranked: FreqTable, m: nat)
    requires NoDups(Labels(t)) && multiset(ranked) == multiset(t) && m <= |ranked|
    ensures NoDups(Labels(ranked[..m]))
    ensures forall w :: w in Labels(ranked[..m]) ==> w in Labels(t)
  {
    var r := Labels(ranked[..m]);
    PermutedLabelsDistinct(t, ranked);
    forall i, j | 0 <= i < j < |r| ensures r[i] != r[j] {
      assert r[i] == Labels(ranked)[i] && r[j] == Labels(ranked)[j];
    }
    forall w | w in r ensures w in Labels(t) {
      var k :| 0 <= k < |r| && r[k] == w;
      PermutedCounts(t, ranked, k);
    }
  }

  lemma RankedPrefixOrdered(t: FreqTable, ranked: FreqTable, m: nat)
    requires NoDups(Labels(t)) && multiset(ranked) == multiset(t) && SortedDesc(ranked, Frequency)
    requires m <= |ranked|
    ensures var r := Labels(ranked[..m]);
            forall i, j :: 0 <= i < j < |r| ==> Lookup(t, r[i]) >= Lookup(t, r[j])
  {
    var r := Labels(ranked[..m]);
    forall i, j | 0 <= i < j < |r| ensures Lookup(t, r[i]) >= Lookup(t, r[j]) {
      PermutedCounts(t, ranked, i);
      PermutedCounts(t, ranked, j);
      assert Frequency(ranked[i]) >= Frequency(ranked[j]);
    }
  }

  lemma RankedPrefixDominates(t: FreqTable, ranked: FreqTable, m: nat)
    requires NoDups(Labels(t)) && multiset(ranked) == multiset(t) && SortedDesc(ranked, Frequency)
    requires m <= |ranked|
    ensures var r := Labels(ranked[..m]);
            forall w, v :: w in Labels(t) && w !in r && v in r ==> Lookup(t, v) >= Lookup(t, w)
  {
    var r := Labels(ranked[..m]);
    forall w, v | w in Labels(t) && w !in r && v in r ensures Lookup(t, v) >= Lookup(t, w) {
      PrefixDominatesOne(t, ranked, m, w, v);
    }
  }

  /** The first `m` labels of a table are the labels of its first `m` pairs. */
  lemma PrefixLabels(ranked: FreqTable, m: nat)
    requires m <= |ranked|
    ensures forall k :: 0 <= k < m ==> Labels(ranked)[k] in Labels(ranked[..m])
  {
    forall k | 0 <= k < m ensures Labels(ranked)[k] in Labels(ranked[..m]) {
      assert Labels(ranked[..m])[k] == ranked[k].0;
    }
  }

  lemma PrefixDominatesOne(t: FreqTable, ranked: FreqTable, m: nat, w: string, v: string)
    requires NoDups(Labels(t)) && multiset(ranked) == multiset(t) && SortedDesc(ranked, Frequency)
    requires m <= |ranked|
    requires w in Labels(t) && w !in Labels(ranked[..m]) && v in Labels(ranked[..m])
    ensures Lookup(t, v) >= Lookup(t, w)
  {
    var r := Labels(ranked[..m]);
    PermutedLabelsCovered(t, ranked, w);
    PrefixLabels(ranked, m);
    var kw :| 0 <= kw < |ranked| && Labels(ranked)[kw] == w;
    var kv :| 0 <= kv < |r| && r[kv] == v;
    assert kv < m <= kw;
    PermutedCounts(t, ranked, kw);
    PermutedCounts(t, ranked, kv);
    assert Frequency(ranked[kv]) >= Frequency(ranked[kw]);
  }

  /** The top labels of `xs`: distinct labels of `xs`, as many as there are distinct
      labels up to three, in non-increasing order of their number of occurrences, and no
      label left out occurs more often than one kept. */
  lemma TopLabelsSpec(xs: seq<string>)
    ensures var r := TopLabels(xs);
            && NoDups(r)
            && |r| == (if |Dedup(xs)| < TopCount then |Dedup(xs)| else TopCount)
            && (forall w :: w in r ==> w in xs)
            && (forall i, j :: 0 <= i < j < |r| ==> multiset(xs)[r[i]] >= multiset(xs)[r[j]])
            && (forall w, v :: w in xs && w !in r && v in r ==> multiset(xs)[v] >= multiset(xs)[w])
  {
    var t := Count(xs);
    CountLabels(xs);
    RankedPrefix(t, SortDesc(t, Frequency), TopCount);
  }

  /** The theme half of the insights comes first, then the skill half, each label taken
      from the entries. */
  lemma InsightsSplit(entries: seq<JournalEntry>)
    requires |entries| > 0
    ensures Insights(Some(entries)) == TopLabels(AllThemes(entries)) + TopLabels(AllSkills(entries))
    ensures forall w :: w in Insights(Some(entries)) ==> w in AllThemes(entries) || w in AllSkills(entries)
  {
    TopLabelsSpec(AllThemes(entries));
    TopLabelsSpec(AllSkills(entries));
  }

  // ---------------------------------------------------------------------------
  // Entry validation (`handleSubmit`)

  /** The fields sent to the server for a new entry. */
  datatype Submission = Submission(mood: string, enjoyed: string, challenges: string, learned: string)

  /** `handleSubmit`: refused (`None`, with a toast) without a mood or with a blank
      "enjoyed" answer, else the mood and the three trimmed answers. */
  function ValidateSubmission(mood: string, enjoyed: string, challenges: string, learned: string): (r: Option<Submission>)
    ensures r.None? <==> mood == "" || IsBlank(enjoyed)
    ensures r.Some? ==> r.value == Submission(mood, Trim(enjoyed), Trim(challenges), Trim(learned))
    ensures r.Some? ==> |r.value.enjoyed| > 0
  {
    if mood == "" || Trim(enjoyed) == "" then None
    else Some(Submission(mood, Trim(enjoyed), Trim(challenges), Trim(learned)))
  }

  /** An accepted submission is unchanged by validating it again. */
  lemma ValidateIdempotent(mood: string, enjoyed: string, challenges: string, learned: string)
    requires ValidateSubmission(mood, enjoyed, challenges, learned).Some?
    ensures var s := ValidateSubmission(mood, enjoyed, challenges, learned).value;
            ValidateSubmission(s.mood, s.enjoyed, s.challenges, s.learned) == Some(s)
  {
    var e, c, l := Trim(enjoyed), Trim(challenges), Trim(learned);
    TrimOfTrimmed(e);
    TrimOfTrimmed(c);
    TrimOfTrimmed(l);
    assert !IsBlank(e);
  }

  /** Trimming a string that neither starts nor ends with whitespace changes nothing. */
  lemma TrimOfTrimmed(s: string)
    requires |s| == 0 || (!IsSpace(s[0]) && !IsSpace(s[|s| - 1]))
    ensures Trim(s) == s
  {
    if |s| > 0 {
      assert SkipSpaces(s, 0) == 0 && SkipSpacesBack(s, |s|) == |s|;
    }
  }

  // ---------------------------------------------------------------------------
  // Writing prompts (`handlePromptClick`)

  /** `handlePromptClick`: the prompt becomes the answer, or is appended after a blank
      line when there is text already. */
  function PromptClick(enjoyed: string, prompt: string): (r: string)
    ensures |prompt| <= |r| && r[|r| - |prompt|..] == prompt
    ensures |enjoyed| <= |r| && r[..|enjoyed|] == enjoyed
    ensures enjoyed == "" ==> r == prompt
    ensures enjoyed != "" ==> |r| == |enjoyed| + 2 + |prompt| && r[|enjoyed|..|enjoyed| + 2] == "\n\n"
  {
    if enjoyed != "" then enjoyed + "\n\n" + prompt else prompt
  }
}
