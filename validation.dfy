/**
 * Payload validation for POST /videos and PUT /videos/:id. Each validator
 * yields the list of `{message, field}` errors the handler accumulates; an
 * empty list means the payload is accepted. The pure functions state the
 * rules; the methods build the list by successive appends, as the handlers do.
 */
module Validation {
  import opened Wrappers
  import opened Text
  import opened Resolutions

  /** The `field` of an error entry. */
  datatype Field = Title | Author | AvailableResolutions | Id

  /** The `message` of an error entry. */
  datatype Message = InvalidTitle | InvalidAuthor | InvalidResolutions | VideoNotFound

  /** One `{message, field}` entry of `errorsMessages`. */
  datatype FieldError = FieldError(message: Message, field: Field)

  /** The `field` string as it is sent. */
  function FieldName(f: Field): string
  {
    match f
    case Title => "title"
    case Author => "author"
    case AvailableResolutions => "availableResolutions"
    case Id => "id"
  }

  /** The `message` string as it is sent. */
  function MessageText(m: Message): string
  {
    match m
    case InvalidTitle => "Invalid title"
    case InvalidAuthor => "Invalid author"
    case InvalidResolutions => "Invalid availableResolutions"
    case VideoNotFound => "Video not found"
  }

  /** Distinct fields are sent under distinct names, and distinct messages as distinct texts. */
  lemma SentFormsDistinct(f: Field, g: Field, m: Message, n: Message)
    ensures FieldName(f) == FieldName(g) <==> f == g
    ensures MessageText(m) == MessageText(n) <==> m == n
  {
    if f != g {
      assert |FieldName(f)| != |FieldName(g)|;
    }
    if m != n {
      assert |MessageText(m)| != |MessageText(n)|;
    }
  }

  /** Create's title error: it is tagged with the field "author". */
  const CreateTitleError := FieldError(InvalidTitle, Author)
  /** Update's title error. */
  const TitleError := FieldError(InvalidTitle, Title)
  const AuthorError := FieldError(InvalidAuthor, Author)
  const ResolutionsError := FieldError(InvalidResolutions, AvailableResolutions)

  /**
   * Create's title error is sent as `{"Invalid title", "author"}`: the message of
   * update's title error under another field.
   */
  lemma CreateTitleErrorSent()
    ensures MessageText(CreateTitleError.message) == "Invalid title"
    ensures FieldName(CreateTitleError.field) == "author"
    ensures MessageText(CreateTitleError.message) == MessageText(TitleError.message)
    ensures FieldName(CreateTitleError.field) != FieldName(TitleError.field)
  {
  }

  /**
   * The fields POST /videos reads. `None` stands for a field that is absent,
   * which the validators treat as they treat null; for `availableResolutions` it
   * also stands for a value that is not an array.
   */
  datatype CreatePayload = CreatePayload(
    title: Option<string>,
    author: Option<string>,
    availableResolutions: Option<seq<string>>)

  /** The fields PUT /videos/:id reads, with the same reading of `None`. */
  datatype UpdatePayload = UpdatePayload(
    title: Option<string>,
    author: Option<string>,
    availableResolutions: Option<seq<string>>,
    canBeDownloaded: Option<bool>,
    minAgeRestriction: Option<int>,
    publicationDate: Option<string>)

  /** What create's checks produce: the errors, or the TypeError thrown by `author.trim()`. */
  datatype CreateCheck = Checked(errors: seq<FieldError>) | Threw

  /** JavaScript truthiness of an optional string: present and non-empty. */
  predicate Truthy(s: Option<string>)
  {
    s.Some? && s.value != []
  }

  // ---------------------------------------------------------------- create

  /** The first create test reaches `author.trim()` (title truthy) with no author to call it on. */
  predicate CreateThrows(p: CreatePayload)
  {
    Truthy(p.title) && p.author.None?
  }

  /** Create's title test: it bounds the trimmed AUTHOR by 40, never the title. */
  predicate CreateTitleFails(p: CreatePayload)
    requires !CreateThrows(p)
  {
    !Truthy(p.title) || |Trim(p.author.value)| > 40
  }

  predicate CreateAuthorFails(p: CreatePayload)
  {
    !Truthy(p.author) || |Trim(p.author.value)| > 20
  }

  /** The resolutions create keeps: a non-empty array as given, anything else replaced by `[]`. */
  function CoercedResolutions(o: Option<seq<string>>): seq<string>
  {
    if o.Some? && o.value != [] then o.value else []
  }

  /** Create's scan of the tags: one error for each tag, in order, that names no member. */
  function UnknownTagErrors(rs: seq<string>): seq<FieldError>
  {
    if rs == [] then []
    else UnknownTagErrors(rs[..|rs| - 1]) + (if IsKey(rs[|rs| - 1]) then [] else [ResolutionsError])
  }

  /** The positions of the tags that name no member. */
  function UnknownPositions(rs: seq<string>): set<int>
  {
    set i | 0 <= i < |rs| && !IsKey(rs[i])
  }

  /** All errors of POST /videos, in the order the handler pushes them. */
  function CreateErrors(p: CreatePayload): CreateCheck
  {
    if CreateThrows(p) then Threw
    else Checked(
      (if CreateTitleFails(p) then [CreateTitleError] else [])
      + (if CreateAuthorFails(p) then [AuthorError] else [])
      + UnknownTagErrors(CoercedResolutions(p.availableResolutions)))
  }

  /**
   * When create accepts a payload: a title, an author whose trimmed length is
   * at most 20, and only member names as tags. The title's length is not bounded.
   */
  predicate CreateAccepts(p: CreatePayload)
  {
    && Truthy(p.title)
    && Truthy(p.author)
    && |Trim(p.author.value)| <= 20
    && forall i :: 0 <= i < |CoercedResolutions(p.availableResolutions)| ==> IsKey(CoercedResolutions(p.availableResolutions)[i])
  }

  /** The unknown positions of a sequence are those of its front, plus its last position if that tag is unknown. */
  lemma UnknownPositionsSnoc(rs: seq<string>)
    requires rs != []
    ensures var n := |rs| - 1;
      && n !in UnknownPositions(rs[..n])
      && UnknownPositions(rs) == UnknownPositions(rs[..n]) + (if IsKey(rs[n]) then {} else {n})
  {
    var n := |rs| - 1;
    var front := UnknownPositions(rs[..n]);
    forall i ensures i in UnknownPositions(rs) <==> i in front || (i == n && !IsKey(rs[n])) {
      if 0 <= i < n {
        assert rs[..n][i] == rs[i];
      }
    }
  }

  /** The tag scan emits exactly one error per unknown tag. */
  lemma {:induction false} UnknownTagErrorsCount(rs: seq<string>)
    ensures |UnknownTagErrors(rs)| == |UnknownPositions(rs)|
  {
    if rs != [] {
      UnknownTagErrorsCount(rs[..|rs| - 1]);
      UnknownPositionsSnoc(rs);
    }
  }

  /** Every error of the tag scan is the resolutions error. */
  lemma {:induction false} UnknownTagErrorsUniform(rs: seq<string>)
    ensures forall e :: e in UnknownTagErrors(rs) ==> e == ResolutionsError
  {
    if rs != [] {
      UnknownTagErrorsUniform(rs[..|rs| - 1]);
    }
  }

  /**
   * Create's errors, field by field: the title error exactly when the title is
   * missing or empty or the trimmed author is longer than 40; the author error
   * exactly when the author is missing or empty or its trimmed length is over
   * 20; otherwise only resolution errors.
   */
  lemma CreateErrorsByField(p: CreatePayload)
    requires !CreateThrows(p)
    ensures CreateErrors(p).Checked?
    ensures var e := CreateErrors(p).errors;
      && (CreateTitleError in e <==> !Truthy(p.title) || |Trim(p.author.value)| > 40)
      && (AuthorError in e <==> !Truthy(p.author) || |Trim(p.author.value)| > 20)
      && forall x :: x in e ==> x == CreateTitleError || x == AuthorError || x == ResolutionsError
  {
    UnknownTagErrorsUniform(CoercedResolutions(p.availableResolutions));
  }

  /** Create reports one resolution error per unknown tag of a non-empty array, and at most one title error. */
  lemma CreateResolutionErrorCount(p: CreatePayload)
    requires !CreateThrows(p)
    ensures CreateErrors(p).Checked?
    ensures var e := CreateErrors(p).errors;
      && multiset(e)[ResolutionsError] == |UnknownPositions(CoercedResolutions(p.availableResolutions))|
      && multiset(e)[CreateTitleError] <= 1
  {
    var tags := UnknownTagErrors(CoercedResolutions(p.availableResolutions));
    var head := (if CreateTitleFails(p) then [CreateTitleError] else []) + (if CreateAuthorFails(p) then [AuthorError] else []);
    UnknownTagErrorsCount(CoercedResolutions(p.availableResolutions));
    UnknownTagErrorsUniform(CoercedResolutions(p.availableResolutions));
    AllEqualCount(tags, ResolutionsError);
    assert CreateErrors(p).errors == head + tags;
    assert multiset(head + tags) == multiset(head) + multiset(tags);
    assert multiset(tags)[CreateTitleError] == 0 by {
      assert CreateTitleError !in tags;
    }
  }

  /** Create reports no error exactly when it accepts the payload. */
  lemma CreateErrorsEmptyIff(p: CreatePayload)
    requires !CreateThrows(p)
    ensures CreateErrors(p) == Checked([]) <==> CreateAccepts(p)
  {
    var rs := CoercedResolutions(p.availableResolutions);
    UnknownTagErrorsCount(rs);
    if UnknownPositions(rs) == {} {
      forall i | 0 <= i < |rs| ensures IsKey(rs[i]) {
        assert i !in UnknownPositions(rs);
      }
    } else {
      var i :| i in UnknownPositions(rs);
    }
  }

  /** In a sequence made of one value only, that value occurs as often as the sequence is long. */
  lemma {:induction false} AllEqualCount(s: seq<FieldError>, x: FieldError)
    requires forall e :: e in s ==> e == x
    ensures multiset(s)[x] == |s|
  {
    if s != [] {
      assert s == [s[0]] + s[1..];
      assert multiset(s) == multiset{s[0]} + multiset(s[1..]);
      assert s[0] in s;
      forall e | e in s[1..] ensures e == x {
        assert e in s;
      }
      AllEqualCount(s[1..], x);
    }
  }

  /** An author longer than 40 after trimming draws two errors, both tagged "author". */
  lemma LongAuthorTwoAuthorErrors(p: CreatePayload)
    requires p.author.Some? && |Trim(p.author.value)| > 40
    ensures CreateErrors(p).Checked?
    ensures var e := CreateErrors(p).errors;
      |e| >= 2 && e[0] == CreateTitleError && e[1] == AuthorError && e[0].field == e[1].field == Author
  {
  }

  /** Create never bounds the title: a 41-character title with a short author is accepted. */
  lemma CreateAcceptsLongTitle()
    ensures var p := CreatePayload(Some(seq(41, _ => 'a')), Some("b"), None);
      CreateErrors(p) == Checked([])
  {
  }

  /** An empty title never throws, whatever the author, and draws the title error first. */
  lemma CreateEmptyTitleRejected(p: CreatePayload)
    requires p.title == Some("")
    ensures CreateErrors(p).Checked? && CreateErrors(p).errors != []
    ensures CreateErrors(p).errors[0] == CreateTitleError
  {
  }

  /** The `map` over a non-empty tag array: one pushed error per tag that names no member. */
  method ScanAllTags(rs: seq<string>) returns (errors: seq<FieldError>)
    ensures errors == UnknownTagErrors(rs)
  {
    errors := [];
    var i := 0;
    while i < |rs|
      invariant 0 <= i <= |rs|
      invariant errors == UnknownTagErrors(rs[..i])
    {
      assert rs[..i + 1][..i] == rs[..i];
      if !IsKey(rs[i]) {
        errors := errors + [ResolutionsError];
      }
      i := i + 1;
    }
    assert rs[..i] == rs;
  }

  /** POST /videos's checks, pushing onto an error list as the handler does. */
  method ValidateCreate(p: CreatePayload) returns (c: CreateCheck)
    ensures c == CreateErrors(p)
  {
    if CreateThrows(p) {
      return Threw;
    }
    var errors: seq<FieldError> := [];
    if CreateTitleFails(p) {
      errors := errors + [CreateTitleError];
    }
    if CreateAuthorFails(p) {
      errors := errors + [AuthorError];
    }
    var resolutions := p.availableResolutions;
    if resolutions.Some? && |resolutions.value| > 0 {
      var tagErrors := ScanAllTags(resolutions.value);
      errors := errors + tagErrors;
    }
    c := Checked(errors);
  }

  // ---------------------------------------------------------------- update

  /** Update's title rule: non-empty, trimmed length at most 40. */
  predicate TitleValid(t: string)
  {
    t != [] && |Trim(t)| <= 40
  }

  /** The author rule (both operations): non-empty, trimmed length at most 20. */
  predicate AuthorValid(a: string)
  {
    a != [] && |Trim(a)| <= 20
  }

  /** Update's resolution rule: at most one error, raised for a missing or empty list or for any unknown tag. */
  function UpdateResolutionErrors(o: Option<seq<string>>): seq<FieldError>
  {
    if o.None? || o.value == [] then [ResolutionsError]
    else if exists i :: 0 <= i < |o.value| && !IsKey(o.value[i]) then [ResolutionsError]
    else []
  }

  /** All errors of PUT /videos/:id, after the destructuring defaults (a missing title or author is ""). */
  function UpdateErrors(p: UpdatePayload): seq<FieldError>
  {
    (if TitleValid(p.title.GetOr("")) then [] else [TitleError])
    + (if AuthorValid(p.author.GetOr("")) then [] else [AuthorError])
    + UpdateResolutionErrors(p.availableResolutions)
  }

  /** When update accepts a payload. */
  predicate UpdateAccepts(p: UpdatePayload)
  {
    && p.title.Some? && TitleValid(p.title.value)
    && p.author.Some? && AuthorValid(p.author.value)
    && p.availableResolutions.Some? && p.availableResolutions.value != []
    && forall i :: 0 <= i < |p.availableResolutions.value| ==> IsKey(p.availableResolutions.value[i])
  }

  /**
   * Update reports at most one error per field, so at most three; each error is
   * present exactly when its rule fails; and there is none exactly when update accepts.
   */
  lemma UpdateErrorsCharacterised(p: UpdatePayload)
    ensures var e := UpdateErrors(p);
      && |e| <= 3
      && (forall i, j :: 0 <= i < j < |e| ==> e[i].field != e[j].field)
      && (TitleError in e <==> !TitleValid(p.title.GetOr("")))
      && (AuthorError in e <==> !AuthorValid(p.author.GetOr("")))
      && (ResolutionsError in e <==>
            !(p.availableResolutions.Some? && p.availableResolutions.value != []
              && forall i :: 0 <= i < |p.availableResolutions.value| ==> IsKey(p.availableResolutions.value[i])))
      && (e == [] <==> UpdateAccepts(p))
  {
  }

  /** A missing title, author or resolution list always draws that field's error. */
  lemma UpdateMissingFieldsRejected(p: UpdatePayload)
    ensures p.title.None? ==> TitleError in UpdateErrors(p)
    ensures p.author.None? ==> AuthorError in UpdateErrors(p)
    ensures p.availableResolutions.None? || p.availableResolutions.value == [] ==> ResolutionsError in UpdateErrors(p)
  {
  }

  /** A title of white space only passes update's title rule: only its trimmed length is bounded. */
  lemma UpdateAcceptsBlankTitle()
    ensures TitleValid("   ")
  {
  }

  /** The `for` loop over a non-empty tag array: one pushed error at the first unknown tag, then `break`. */
  method ScanUntilUnknown(rs: seq<string>) returns (errors: seq<FieldError>)
    requires rs != []
    ensures errors == UpdateResolutionErrors(Some(rs))
  {
    errors := [];
    var i := 0;
    while i < |rs|
      invariant 0 <= i <= |rs|
      invariant forall k :: 0 <= k < i ==> IsKey(rs[k])
      invariant errors == []
    {
      if !IsKey(rs[i]) {
        errors := errors + [ResolutionsError];
        break;
      }
      i := i + 1;
    }
  }

  /** PUT /videos/:id's checks on the defaulted fields. */
  method ValidateUpdate(p: UpdatePayload) returns (errors: seq<FieldError>)
    ensures errors == UpdateErrors(p)
  {
    var title := p.title.GetOr("");
    var author := p.author.GetOr("");
    var resolutions := p.availableResolutions;
    errors := [];
    if !TitleValid(title) {
      errors := errors + [TitleError];
    }
    if !AuthorValid(author) {
      errors := errors + [AuthorError];
    }
    if resolutions.None? || |resolutions.value| == 0 {
      errors := errors + [ResolutionsError];
    } else {
      var tagErrors := ScanUntilUnknown(resolutions.value);
      errors := errors + tagErrors;
    }
  }
}
