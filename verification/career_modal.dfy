/** The roadmap formatting of `client/src/components/CareerModal.tsx`: a career's
    year-by-year roadmap text is shown as one bullet per non-blank line. */
module CareerModal {
  import opened Optional
  import opened Seqs
  import opened Text

  function IsNewline(c: char): bool {
    c == '\n'
  }

  /** `filter(line => line.trim())`: the lines whose trimmed form is non-empty, in order. */
  function NonBlankLines(lines: seq<string>): (r: seq<string>)
    ensures IsSubseq(r, lines)
    ensures forall l :: l in r <==> l in lines && !IsBlank(l)
    ensures forall l :: multiset(r)[l] == if IsBlank(l) then 0 else multiset(lines)[l]
  {
    if |lines| == 0 then []
    else
      var first := lines[0];
      var rest := NonBlankLines(lines[1..]);
      assert lines == [first] + lines[1..];
      assert multiset(lines) == multiset{first} + multiset(lines[1..]);
      SubseqCons(rest, lines[1..], first);
      var keep := |Trim(first)| > 0;
      assert keep <==> !IsBlank(first);
      if keep then
        assert multiset([first] + rest) == multiset{first} + multiset(rest);
        [first] + rest
      else rest
  }

  /** `formatRoadmapText`: nothing for a missing or empty roadmap, otherwise the text cut
      at every newline with the blank lines dropped. */
  function RoadmapLines(text: Option<string>): (r: seq<string>)
    ensures text.None? || text.value == "" ==> r == []
    ensures forall l :: l in r ==> '\n' !in l && !IsBlank(l)
    ensures text.Some? && text.value != "" ==>
              IsSubseq(r, Split(text.value, IsNewline))
              && (forall l :: l in r <==> l in Split(text.value, IsNewline) && !IsBlank(l))
              && forall l :: multiset(r)[l] == if IsBlank(l) then 0 else multiset(Split(text.value, IsNewline))[l]
  {
    if text.None? || text.value == "" then []
    else
      var lines := Split(text.value, IsNewline);
      assert forall l :: l in lines ==> '\n' !in l by {
        forall l | l in lines ensures '\n' !in l {
          var k :| 0 <= k < |lines| && lines[k] == l;
          assert forall i :: 0 <= i < |l| ==> !IsNewline(l[i]);
        }
      }
      NonBlankLines(lines)
  }

  /** A list without blank lines passes the filter unchanged. */
  lemma {:induction false} NonBlankLinesKeepsAll(lines: seq<string>)
    requires forall l :: l in lines ==> !IsBlank(l)
    ensures NonBlankLines(lines) == lines
  {
    if |lines| > 0 {
      assert lines[0] in lines;
      assert |Trim(lines[0])| > 0;
      assert forall l :: l in lines[1..] ==> l in lines;
      NonBlankLinesKeepsAll(lines[1..]);
      assert NonBlankLines(lines) == [lines[0]] + NonBlankLines(lines[1..]);
    }
  }

  /** When no line of a roadmap is blank, joining the displayed lines with newlines gives
      back the roadmap text: nothing is lost or reordered. */
  lemma RoadmapRoundTrip(text: string)
    requires text != ""
    requires forall l :: l in Split(text, IsNewline) ==> !IsBlank(l)
    ensures Join(RoadmapLines(Some(text)), '\n') == text
  {
    NonBlankLinesKeepsAll(Split(text, IsNewline));
    JoinSplit(text, IsNewline, '\n');
  }

  /** A roadmap of nothing but whitespace shows no lines at all. */
  lemma BlankRoadmapShowsNothing(text: string)
    requires IsBlank(text)
    ensures RoadmapLines(Some(text)) == []
  {
    if text != "" {
      var lines := Split(text, IsNewline);
      SplitKeepsCharacters(text, IsNewline, IsSpace);
      assert forall l :: l in lines ==> IsBlank(l);
      var r := RoadmapLines(Some(text));
      if |r| > 0 {
        assert r[0] in r;
      }
    }
  }
}
