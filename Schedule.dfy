/** The upload schedule: the posts shown in the calendar and the form that
    adds one (`handleScheduleSubmit`). */
module Schedule {
  import opened Sequences
  import opened StableSort
  import opened Text

  /** Milliseconds since the epoch, what `new Date(scheduledAt).getTime()` returns. */
  type Instant = int

  datatype Option<T> = None | Some(value: T)

  datatype Platform = TikTok | YouTubeShorts
  datatype Status = Scheduled | Ready | Draft

  datatype ScheduleItem = ScheduleItem(
    id: string,
    platform: Platform,
    scheduledAt: Instant,
    title: string,
    description: string,
    tags: seq<string>,
    thumbnail: string,
    status: Status)

  /** The raw form fields, as typed. */
  datatype ScheduleForm = ScheduleForm(
    date: string,
    time: string,
    platform: Platform,
    title: string,
    description: string,
    tags: string,
    thumbnail: string)

  datatype FormField = DateField | TimeField | TitleField | DescriptionField | TagsField | ThumbnailField

  datatype SubmitError =
    | MissingField      // date or time empty, or title blank: the handler returns early
    | InvalidTimestamp  // `toISOString` throws before any state is updated

  datatype Outcome = Added(item: ScheduleItem) | Rejected(error: SubmitError)

  const DefaultThumbnail: string :=
    "https://images.unsplash.com/" + "photo-1523475472560-d2df97ec485c" + "?auto=format&fit=crop&w=640&q=80"

  /** The form as first shown and as reset after every successful submit. */
  const BlankForm: ScheduleForm := ScheduleForm("", "10:00", TikTok, "", "", "", "")

  function TimeOf(p: ScheduleItem): int
  {
    p.scheduledAt
  }

  function TrimAll(parts: seq<string>): (r: seq<string>)
    ensures |r| == |parts|
    ensures forall i :: 0 <= i < |r| ==> r[i] == Trim(parts[i])
  {
    seq(|parts|, i requires 0 <= i < |parts| => Trim(parts[i]))
  }

  predicate IsNonEmpty(s: string)
  {
    s != []
  }

  /** `tags.split(",").map(tag => tag.trim()).filter(Boolean)`. */
  function NormalizeTags(raw: string): seq<string>
  {
    Filter(TrimAll(Split(raw, ',')), IsNonEmpty)
  }

  /** Every tag is non-empty, has no surrounding whitespace and no comma;
      every piece between commas that is not blank is kept, in order,
      as many times as it occurs; and there are no more tags than pieces. */
  lemma NormalizedTagsWellFormed(raw: string)
    ensures var tags := NormalizeTags(raw);
      && |tags| <= |Split(raw, ',')|
      && (forall i :: 0 <= i < |tags| ==> tags[i] != [] && Trim(tags[i]) == tags[i] && ',' !in tags[i])
      && (forall i :: 0 <= i < |Split(raw, ',')| && Trim(Split(raw, ',')[i]) != [] ==>
            Trim(Split(raw, ',')[i]) in tags)
      && IsSubsequence(tags, TrimAll(Split(raw, ',')))
      && (forall x :: multiset(tags)[x] == if x != [] then multiset(TrimAll(Split(raw, ',')))[x] else 0)
  {
    TagsOfPieces(Split(raw, ','));
  }

  lemma TagsOfPieces(pieces: seq<string>)
    requires forall i :: 0 <= i < |pieces| ==> ',' !in pieces[i]
    ensures var tags := Filter(TrimAll(pieces), IsNonEmpty);
      && |tags| <= |pieces|
      && (forall i :: 0 <= i < |tags| ==> tags[i] != [] && Trim(tags[i]) == tags[i] && ',' !in tags[i])
      && (forall i :: 0 <= i < |pieces| && Trim(pieces[i]) != [] ==> Trim(pieces[i]) in tags)
      && IsSubsequence(tags, TrimAll(pieces))
      && (forall x :: multiset(tags)[x] == if x != [] then multiset(TrimAll(pieces))[x] else 0)
  {
    KeptPiecesClean(pieces);
    NonBlankPiecesKept(pieces);
    FilterIsSubsequence(TrimAll(pieces), IsNonEmpty);
    NonEmptyCopiesKept(TrimAll(pieces));
  }

  lemma NonEmptyCopiesKept(trimmed: seq<string>)
    ensures forall x :: multiset(Filter(trimmed, IsNonEmpty))[x] == if x != [] then multiset(trimmed)[x] else 0
  {
    FilterMultiset(trimmed, IsNonEmpty);
    forall x ensures multiset(Filter(trimmed, IsNonEmpty))[x] == if x != [] then multiset(trimmed)[x] else 0 {
      assert IsNonEmpty(x) == (x != []);
    }
  }

  lemma KeptPiecesClean(pieces: seq<string>)
    requires forall i :: 0 <= i < |pieces| ==> ',' !in pieces[i]
    ensures var tags := Filter(TrimAll(pieces), IsNonEmpty);
      forall i :: 0 <= i < |tags| ==> tags[i] != [] && Trim(tags[i]) == tags[i] && ',' !in tags[i]
  {
    var trimmed := TrimAll(pieces);
    var tags := Filter(trimmed, IsNonEmpty);
    forall i | 0 <= i < |tags|
      ensures tags[i] != [] && Trim(tags[i]) == tags[i] && ',' !in tags[i]
    {
      var j :| 0 <= j < |trimmed| && trimmed[j] == tags[i];
      TrimmedPieceClean(pieces[j]);
    }
  }

  lemma NonBlankPiecesKept(pieces: seq<string>)
    ensures forall i :: 0 <= i < |pieces| && Trim(pieces[i]) != [] ==>
      Trim(pieces[i]) in Filter(TrimAll(pieces), IsNonEmpty)
  {
    var trimmed := TrimAll(pieces);
    forall i | 0 <= i < |pieces| && Trim(pieces[i]) != []
      ensures Trim(pieces[i]) in Filter(trimmed, IsNonEmpty)
    {
      assert trimmed[i] == Trim(pieces[i]) && IsNonEmpty(trimmed[i]);
    }
  }

  lemma TrimmedPieceClean(piece: string)
    requires ',' !in piece
    ensures Trim(Trim(piece)) == Trim(piece) && ',' !in Trim(piece)
  {
    TrimIdempotent(piece);
    var start := TrimIsSlice(piece);
    var t := Trim(piece);
    forall k | 0 <= k < |t| ensures t[k] != ',' {
      assert t[k] == piece[start + k];
    }
  }

  /** A worked example: `"#A, #B,,  #C "` gives `["#A", "#B", "#C"]`. */
  lemma NormalizeTagsExample()
    ensures NormalizeTags("#A, #B,,  #C ") == ["#A", "#B", "#C"]
  {
    var pieces := ["#A", " #B", "", "  #C "];
    assert Join(pieces, ',') == "#A, #B,,  #C ";
    SplitJoin(pieces, ',');
    ExamplePiecesTrimmed();
    ExampleTagsKept();
  }

  lemma ExamplePiecesTrimmed()
    ensures TrimAll(["#A", " #B", "", "  #C "]) == ["#A", "#B", "", "#C"]
  {
    TrimAllOf4("#A", " #B", "", "  #C ");
    ExampleTrimA();
    ExampleTrimB();
    ExampleTrimC();
    assert Trim("") == "";
  }

  lemma TrimAllOf4(a: string, b: string, c: string, d: string)
    ensures TrimAll([a, b, c, d]) == [Trim(a), Trim(b), Trim(c), Trim(d)]
  {
  }

  lemma ExampleTrimA()
    ensures Trim("#A") == "#A"
  {
    assert !IsWhitespace('#') && !IsWhitespace('A');
  }

  lemma ExampleTrimB()
    ensures Trim(" #B") == "#B"
  {
    assert TrimStart(" #B") == "#B" by {
      var b := " #B";
      assert IsWhitespace(b[0]) && b[1..] == "#B";
      assert !IsWhitespace('#');
    }
    assert TrimEnd("#B") == "#B" by {
      assert !IsWhitespace('B');
    }
  }

  lemma ExampleTrimC()
    ensures Trim("  #C ") == "#C"
  {
    ExampleTrimStartC();
    ExampleTrimEndC();
  }

  lemma ExampleTrimStartC()
    ensures TrimStart("  #C ") == "#C "
  {
    var c := "  #C ";
    assert IsWhitespace(c[0]) && IsWhitespace(c[1]) && !IsWhitespace(c[2]);
    assert c[1..] == " #C " && c[2..] == "#C ";
  }

  lemma ExampleTrimEndC()
    ensures TrimEnd("#C ") == "#C"
  {
    var e := "#C ";
    assert IsWhitespace(e[2]) && !IsWhitespace(e[1]);
    assert e[..2] == "#C";
  }

  lemma ExampleTagsKept()
    ensures Filter(["#A", "#B", "", "#C"], IsNonEmpty) == ["#A", "#B", "#C"]
  {
    assert ["#A", "#B", "", "#C"] == ["#A", "#B"] + ["", "#C"];
    FilterConcat(["#A", "#B"], ["", "#C"], IsNonEmpty);
    ExampleFirstTagsKept();
    ExampleBlankTagDropped();
    assert ["#A", "#B"] + ["#C"] == ["#A", "#B", "#C"];
  }

  lemma ExampleFirstTagsKept()
    ensures Filter(["#A", "#B"], IsNonEmpty) == ["#A", "#B"]
  {
    var s := ["#A", "#B"];
    assert IsNonEmpty(s[0]) && IsNonEmpty(s[1]);
    FilterAll(s, IsNonEmpty);
  }

  lemma ExampleBlankTagDropped()
    ensures Filter(["", "#C"], IsNonEmpty) == ["#C"]
  {
    var s := ["", "#C"];
    assert !IsNonEmpty(s[0]) && s[1..] == ["#C"];
    assert Filter(s, IsNonEmpty) == Filter(["#C"], IsNonEmpty);
    FilterSingleton("#C", IsNonEmpty);
  }

  /** Submission is refused unless date and time are filled in and the
      title is not blank. */
  predicate HasRequiredFields(form: ScheduleForm)
  {
    form.date != [] && form.time != [] && Trim(form.title) != []
  }

  /** The local date-time text handed to `new Date(...)`. */
  function LocalDateTime(form: ScheduleForm): string
  {
    form.date + "T" + form.time + ":00"
  }

  /** The post built from a validated form. */
  function NewPost(form: ScheduleForm, id: string, at: Instant): (p: ScheduleItem)
    ensures p.id == id && p.platform == form.platform && p.scheduledAt == at
    ensures p.title == Trim(form.title) && p.description == Trim(form.description)
    ensures p.tags == NormalizeTags(form.tags)
    ensures Trim(form.thumbnail) != [] ==> p.thumbnail == Trim(form.thumbnail)
    ensures Trim(form.thumbnail) == [] ==> p.thumbnail == DefaultThumbnail
    ensures p.status == Scheduled
  {
    var thumbnail := Trim(form.thumbnail);
    ScheduleItem(
      id, form.platform, at, Trim(form.title), Trim(form.description),
      NormalizeTags(form.tags),
      if thumbnail != [] then thumbnail else DefaultThumbnail,
      Scheduled)
  }

  /** A new post carries no surrounding whitespace in its title,
      description, tags or thumbnail, has no empty tag, and always has a
      thumbnail. */
  lemma NewPostNormalised(form: ScheduleForm, id: string, at: Instant)
    ensures var p := NewPost(form, id, at);
      && Trim(p.title) == p.title && Trim(p.description) == p.description
      && p.thumbnail != [] && Trim(p.thumbnail) == p.thumbnail
      && (forall i :: 0 <= i < |p.tags| ==> p.tags[i] != [] && Trim(p.tags[i]) == p.tags[i])
  {
    NewPostTextTrimmed(form, id, at);
    NewPostHasThumbnail(form, id, at);
    NewPostTagsTrimmed(form, id, at);
  }

  lemma NewPostTextTrimmed(form: ScheduleForm, id: string, at: Instant)
    ensures var p := NewPost(form, id, at);
      Trim(p.title) == p.title && Trim(p.description) == p.description
  {
    TrimIdempotent(form.title);
    TrimIdempotent(form.description);
  }

  lemma NewPostHasThumbnail(form: ScheduleForm, id: string, at: Instant)
    ensures var p := NewPost(form, id, at);
      p.thumbnail != [] && Trim(p.thumbnail) == p.thumbnail
  {
    TrimIdempotent(form.thumbnail);
    DefaultThumbnailTrimmed();
  }

  lemma NewPostTagsTrimmed(form: ScheduleForm, id: string, at: Instant)
    ensures var p := NewPost(form, id, at);
      forall i :: 0 <= i < |p.tags| ==> p.tags[i] != [] && Trim(p.tags[i]) == p.tags[i]
  {
    NormalizedTagsWellFormed(form.tags);
  }

  lemma DefaultThumbnailTrimmed()
    ensures DefaultThumbnail != [] && Trim(DefaultThumbnail) == DefaultThumbnail
  {
    var d := DefaultThumbnail;
    assert d[0] == 'h' && d[|d| - 1] == '0';
    assert TrimStart(d) == d;
    assert TrimEnd(d) == d;
  }

  /** What a submit does with a form, given how the browser parses local
      date-time text (`None` for an invalid date) and the next fresh id. */
  function SubmitOutcome(form: ScheduleForm, parse: string -> Option<Instant>, id: string): Outcome
  {
    if !HasRequiredFields(form) then Rejected(MissingField)
    else match parse(LocalDateTime(form))
      case None => Rejected(InvalidTimestamp)
      case Some(at) => Added(NewPost(form, id, at))
  }

  /** A submit is accepted exactly when the required fields are present and
      the date-time parses; an accepted post has a title that is not blank. */
  lemma SubmitOutcomeCases(form: ScheduleForm, parse: string -> Option<Instant>, id: string)
    ensures var o := SubmitOutcome(form, parse, id);
      && (o.Rejected? && o.error == MissingField <==>
            form.date == [] || form.time == [] || IsBlank(form.title))
      && (o.Added? <==>
            (!IsBlank(form.title) && form.date != [] && form.time != [] && parse(LocalDateTime(form)).Some?))
      && (o.Added? ==>
            (o.item.title != [] && !IsBlank(o.item.title) && o.item.scheduledAt == parse(LocalDateTime(form)).value))
  {
    TrimEmptyIffBlank(form.title);
    var t := Trim(form.title);
    if t != [] {
      assert !IsWhitespace(t[0]);
    }
  }

  /** The posts' order in the store: `[...previous, newPost].sort((a, b) => a.time - b.time)`. */
  function AddPost(posts: seq<ScheduleItem>, p: ScheduleItem): seq<ScheduleItem>
  {
    SortByKey(posts + [p], TimeOf)
  }

  /** After an insertion the list is the old list plus the new post,
      sorted by time; posts with the same time keep their order and the new
      post comes after them. When the old list was sorted, the new post is
      placed right after the posts that are not later than it. */
  lemma AddPostSpec(posts: seq<ScheduleItem>, p: ScheduleItem)
    ensures var r := AddPost(posts, p);
      && multiset(r) == multiset(posts) + multiset{p}
      && SortedBy(r, TimeOf)
      && (forall t :: WithKey(r, TimeOf, t) ==
            WithKey(posts, TimeOf, t) + (if p.scheduledAt == t then [p] else []))
    ensures SortedBy(posts, TimeOf) ==>
      var k := CountAtMost(posts, TimeOf, p.scheduledAt);
      AddPost(posts, p) == posts[..k] + [p] + posts[k..]
  {
    var r := AddPost(posts, p);
    forall t ensures WithKey(r, TimeOf, t) == WithKey(posts, TimeOf, t) + (if p.scheduledAt == t then [p] else []) {
      SortByKeyStable(posts + [p], TimeOf, t);
      FilterSnoc(posts, p, KeyIs(TimeOf, t));
    }
    if SortedBy(posts, TimeOf) {
      var k := CountAtMost(posts, TimeOf, p.scheduledAt);
      InsertAfterPosition(p, posts, TimeOf);
      SortSortedIsIdentity(posts, TimeOf);
      assert posts + [p] == (posts + [p])[..|posts|] + [p];
      assert (posts + [p])[..|posts|] == posts;
    }
  }

  predicate DistinctIds(posts: seq<ScheduleItem>)
  {
    forall i, j :: 0 <= i < j < |posts| ==> posts[i].id != posts[j].id
  }

  predicate FreshId(posts: seq<ScheduleItem>, id: string)
  {
    forall i :: 0 <= i < |posts| ==> posts[i].id != id
  }

  /** With a fresh id the sorted insertion keeps ids unique. */
  lemma AddPostKeepsIdsDistinct(posts: seq<ScheduleItem>, p: ScheduleItem)
    requires SortedBy(posts, TimeOf) && DistinctIds(posts) && FreshId(posts, p.id)
    ensures DistinctIds(AddPost(posts, p))
  {
    AddPostSpec(posts, p);
    var k := CountAtMost(posts, TimeOf, p.scheduledAt);
    var r := AddPost(posts, p);
    assert r == posts[..k] + [p] + posts[k..];
    assert |r| == |posts| + 1;
    forall i, j | 0 <= i < j < |r| ensures r[i].id != r[j].id {
      var a := if i < k then posts[i] else if i == k then p else posts[i - 1];
      var b := if j < k then posts[j] else if j == k then p else posts[j - 1];
      assert r[i] == a && r[j] == b;
    }
  }

  lemma ThreeInOrder(a: ScheduleItem, b: ScheduleItem, c: ScheduleItem)
    requires a.scheduledAt <= b.scheduledAt <= c.scheduledAt
    requires a.id != b.id && a.id != c.id && b.id != c.id
    ensures SortedBy([a, b, c], TimeOf) && DistinctIds([a, b, c])
  {
  }

  /** Texts of the three sample posts the page opens with. */
  const SampleTitles: seq<string> := [
    "AI Agents Built My Viral Engine",
    "3 Hooks That Keep Viewers for 60 Seconds",
    "Viral Blueprint: 20-Minute Automation Setup"]
  const SampleDescriptions: seq<string> := [
    "How I automated 2 uploads daily using creator agents.",
    "Steal the hook stack I'm using on automation breakdowns.",
    "A behind-the-scenes look at our video automation dashboard."]
  const SampleTags: seq<seq<string>> := [
    ["#AIAgents", "#CreatorAutomation", "#ViralBlueprint"],
    ["#ShortFormMastery", "#HookWriting"],
    ["#ViralBlueprint", "#Automation"]]
  const SampleThumbnails: seq<string> := [
    DefaultThumbnail,
    "https://images.unsplash.com/photo-1515377905703-c4788e51af15?auto=format&fit=crop&w=640&q=80"]

  /** The schedule state of the page: the posts (`scheduledPosts`) and the
      form (`scheduleForm`). */
  class ScheduleStore {
    var posts: seq<ScheduleItem>
    var form: ScheduleForm

    /** Posts are always in chronological order and ids are never reused. */
    ghost predicate Valid()
      reads this
    {
      SortedBy(posts, TimeOf) && DistinctIds(posts)
    }

    /** The three sample posts, 5, 26 and 48 hours after `now`, and a blank form. */
    constructor (now: Instant, id1: string, id2: string, id3: string)
      requires id1 != id2 && id1 != id3 && id2 != id3
      ensures Valid()
      ensures |posts| == 3 && form == BlankForm
      ensures posts[0].scheduledAt == now + 5 * 3600000
      ensures posts[1].scheduledAt == now + 26 * 3600000
      ensures posts[2].scheduledAt == now + 48 * 3600000
      ensures posts[0].id == id1 && posts[1].id == id2 && posts[2].id == id3
      ensures posts == [
        ScheduleItem(id1, TikTok, now + 5 * 3600000, SampleTitles[0], SampleDescriptions[0],
          SampleTags[0], SampleThumbnails[0], Scheduled),
        ScheduleItem(id2, YouTubeShorts, now + 26 * 3600000, SampleTitles[1], SampleDescriptions[1],
          SampleTags[1], SampleThumbnails[1], Ready),
        ScheduleItem(id3, TikTok, now + 48 * 3600000, SampleTitles[2], SampleDescriptions[2],
          SampleTags[2], SampleThumbnails[0], Draft)]
    {
      var first := ScheduleItem(id1, TikTok, now + 5 * 3600000,
        SampleTitles[0], SampleDescriptions[0], SampleTags[0], SampleThumbnails[0], Scheduled);
      var second := ScheduleItem(id2, YouTubeShorts, now + 26 * 3600000,
        SampleTitles[1], SampleDescriptions[1], SampleTags[1], SampleThumbnails[1], Ready);
      var third := ScheduleItem(id3, TikTok, now + 48 * 3600000,
        SampleTitles[2], SampleDescriptions[2], SampleTags[2], SampleThumbnails[0], Draft);
      ThreeInOrder(first, second, third);
      posts := [first, second, third];
      form := BlankForm;
    }

    /** `handleScheduleFormChange`: one text field takes the typed value. */
    method ChangeField(field: FormField, value: string)
      modifies this
      ensures posts == old(posts)
      ensures form == match field
        case DateField => old(form).(date := value)
        case TimeField => old(form).(time := value)
        case TitleField => old(form).(title := value)
        case DescriptionField => old(form).(description := value)
        case TagsField => old(form).(tags := value)
        case ThumbnailField => old(form).(thumbnail := value)
    {
      match field
      case DateField => form := form.(date := value);
      case TimeField => form := form.(time := value);
      case TitleField => form := form.(title := value);
      case DescriptionField => form := form.(description := value);
      case TagsField => form := form.(tags := value);
      case ThumbnailField => form := form.(thumbnail := value);
    }

    /** The platform select. */
    method ChangePlatform(platform: Platform)
      modifies this
      ensures posts == old(posts) && form == old(form).(platform := platform)
    {
      form := form.(platform := platform);
    }

    /** `handleScheduleSubmit`. `parse` stands for `new Date(text)` followed
        by `toISOString` (None when that throws); `id` is what `createId`
        returns, assumed not to clash with an existing post. A rejected
        submit changes nothing; an accepted one inserts the post in time
        order and resets the form. */
    method Submit(parse: string -> Option<Instant>, id: string) returns (outcome: Outcome)
      requires Valid()
      requires FreshId(posts, id)
      modifies this
      ensures Valid()
      ensures outcome == SubmitOutcome(old(form), parse, id)
      ensures outcome.Rejected? ==> posts == old(posts) && form == old(form)
      ensures outcome.Added? ==> posts == AddPost(old(posts), outcome.item) && form == BlankForm
    {
      if form.date == [] || form.time == [] || Trim(form.title) == [] {
        return Rejected(MissingField);
      }
      var at := parse(LocalDateTime(form));
      if at.None? {
        return Rejected(InvalidTimestamp);
      }
      var post := NewPost(form, id, at.value);
      var added := AddPost(posts, post);
      assert SortedBy(added, TimeOf) && DistinctIds(added) by {
        AddPostSpec(posts, post);
        AddPostKeepsIdsDistinct(posts, post);
      }
      posts := added;
      form := BlankForm;
      outcome := Added(post);
    }
  }
}
