/** The clip search of the editing view (`clipResults`): a query that is
    blank after trimming shows every clip; otherwise the clips whose title,
    lower-cased, contains the trimmed, lower-cased query, in library order. */
module Clips {
  import opened Sequences
  import opened Text

  datatype ClipSource = ClipSource(id: string, title: string, creator: string, duration: int,
                                   url: string, category: string, complianceNotes: string)

  function TitleContains(needle: string): ClipSource -> bool
  {
    (c: ClipSource) => Contains(Lower(c.title), needle)
  }

  function ClipResults(clips: seq<ClipSource>, query: string): seq<ClipSource>
  {
    if Trim(query) == [] then clips
    else Filter(clips, TitleContains(Lower(Trim(query))))
  }

  /** The results keep library order; a blank query gives the whole
      library; otherwise a clip is shown exactly when its title matches,
      with every copy it has in the library. */
  lemma ClipResultsSpec(clips: seq<ClipSource>, query: string)
    ensures var r := ClipResults(clips, query);
      && IsSubsequence(r, clips)
      && (IsBlank(query) ==> r == clips)
      && (!IsBlank(query) ==> forall i :: 0 <= i < |r| ==> Contains(Lower(r[i].title), Lower(Trim(query))))
      && (!IsBlank(query) ==> forall i :: 0 <= i < |clips| ==>
            (clips[i] in r <==> Contains(Lower(clips[i].title), Lower(Trim(query)))))
      && (!IsBlank(query) ==>
            forall c :: multiset(r)[c] ==
              if Contains(Lower(c.title), Lower(Trim(query))) then multiset(clips)[c] else 0)
  {
    TrimEmptyIffBlank(query);
    if Trim(query) == [] {
      SubsequenceReflexive(clips);
    } else {
      FilterIsSubsequence(clips, TitleContains(Lower(Trim(query))));
      FilterMultiset(clips, TitleContains(Lower(Trim(query))));
    }
  }

  /** The search ignores the case of ASCII letters and the whitespace
      around the query. */
  lemma ClipQueryNormalised(clips: seq<ClipSource>, query: string)
    ensures ClipResults(clips, Lower(query)) == ClipResults(clips, query)
    ensures ClipResults(clips, Trim(query)) == ClipResults(clips, query)
  {
    LowerTrimCommute(query);
    LowerIdempotent(Trim(query));
    TrimIdempotent(query);
  }
}
