/**
 * The in-memory `videoDb`: an ordered array of video records, searched by id
 * left to right, appended to on create, overwritten in place on update,
 * spliced on delete and emptied on clear. Clock-derived values (the new id and
 * the two timestamps) are parameters.
 */
module Store {
  import opened Wrappers
  import opened Resolutions
  import opened Validation

  /** `VideoType`. Timestamps are the ISO strings the store keeps; `minAgeRestriction` None is null. */
  datatype Video = Video(
    id: int,
    title: string,
    author: string,
    canBeDownloaded: bool,
    minAgeRestriction: Option<int>,
    createdAt: string,
    publicationDate: string,
    availableResolutions: seq<string>)

  /** What a handler answers, without the HTTP status. */
  datatype Outcome =
    | Found(video: Video)              // GET sends the record
    | Created(video: Video)            // POST sends the new record
    | NoContent                        // PUT and the DELETEs send nothing
    | NotFound(errors: seq<FieldError>) // GET: no errorsMessages entry; PUT and DELETE: one
    | Invalid(errors: seq<FieldError>)  // the validation errors
    | Crashed                          // create threw before touching the store

  const NotFoundError := FieldError(VideoNotFound, Id)

  /** The record the store starts with. */
  function Seed(): Video
  {
    Video(0, "string", "string", true, None, "2023-08-14T16:17:22.082Z", "2023-08-14T16:17:22.082Z", [Value(P144)])
  }

  /**
   * `findIndex` by id: the position of the first record with that id, or -1
   * when no record has it.
   */
  function FindIndex(vs: seq<Video>, id: int): (i: int)
    ensures -1 <= i < |vs|
    ensures i == -1 <==> forall k :: 0 <= k < |vs| ==> vs[k].id != id
    ensures 0 <= i ==> vs[i].id == id && forall k :: 0 <= k < i ==> vs[k].id != id
  {
    if vs == [] then -1
    else if vs[0].id == id then 0
    else
      var j := FindIndex(vs[1..], id);
      if j == -1 then -1 else j + 1
  }

  /** `find` by id: the first record with that id, if any. */
  function Find(vs: seq<Video>, id: int): (r: Option<Video>)
    ensures r.None? <==> forall k :: 0 <= k < |vs| ==> vs[k].id != id
    ensures r.Some? ==> r.value in vs && r.value.id == id
    ensures r.Some? ==> r.value == vs[FindIndex(vs, id)]
  {
    var i := FindIndex(vs, id);
    if i == -1 then None else Some(vs[i])
  }

  /** No two records share an id (the code does not enforce it; the clock makes it likely). */
  ghost predicate UniqueIds(vs: seq<Video>)
  {
    forall i, j :: 0 <= i < j < |vs| ==> vs[i].id != vs[j].id
  }

  /** What every record in the store satisfies: the rules both create and update check. */
  ghost predicate WellFormed(v: Video)
  {
    && v.title != []
    && AuthorValid(v.author)
    && forall k :: 0 <= k < |v.availableResolutions| ==> IsKey(v.availableResolutions[k])
  }

  /**
   * After appending a record whose id was absent, finding that id yields the
   * record, every other id finds what it found before, and unique ids stay unique.
   */
  lemma {:induction false} FindAfterAppend(vs: seq<Video>, v: Video, id: int)
    requires forall k :: 0 <= k < |vs| ==> vs[k].id != v.id
    ensures Find(vs + [v], v.id) == Some(v)
    ensures id != v.id ==> Find(vs + [v], id) == Find(vs, id)
    ensures UniqueIds(vs) ==> UniqueIds(vs + [v])
  {
    var ws := vs + [v];
    assert ws[|vs|] == v;
    assert forall k :: 0 <= k < |vs| ==> ws[k] == vs[k];
    if id != v.id {
      var i := FindIndex(vs, id);
      if i >= 0 {
        assert ws[i] == vs[i];
        assert forall k :: 0 <= k < i ==> ws[k] == vs[k];
      }
    }
  }

  /** `splice(i, 1)`: the records before position `i`, then those after it, in their order. */
  function Spliced(vs: seq<Video>, i: nat): (ws: seq<Video>)
    requires i < |vs|
    ensures |ws| == |vs| - 1
    ensures forall k :: 0 <= k < i ==> ws[k] == vs[k]
    ensures forall k :: i <= k < |ws| ==> ws[k] == vs[k + 1]
    ensures multiset(ws) + multiset{vs[i]} == multiset(vs)
  {
    assert vs == vs[..i] + [vs[i]] + vs[i + 1..];
    vs[..i] + vs[i + 1..]
  }

  /** With unique ids, splicing out the first record with an id leaves no record with it, and ids stay unique. */
  lemma RemoveFirstMatch(vs: seq<Video>, id: int)
    requires UniqueIds(vs)
    requires FindIndex(vs, id) >= 0
    ensures var ws := Spliced(vs, FindIndex(vs, id));
      FindIndex(ws, id) == -1 && UniqueIds(ws)
  {
    var i := FindIndex(vs, id);
    var ws := Spliced(vs, i);
    forall k | 0 <= k < |ws| ensures ws[k].id != id {
      if k >= i {
        assert ws[k] == vs[k + 1];
      }
    }
    forall a, b | 0 <= a < b < |ws| ensures ws[a].id != ws[b].id {
      var a' := if a < i then a else a + 1;
      var b' := if b < i then b else b + 1;
      assert ws[a] == vs[a'] && ws[b] == vs[b'];
    }
  }

  /** Splicing out the first record with `id` leaves the lookup of any other id on the same record. */
  lemma {:induction false} FindOtherAfterRemove(vs: seq<Video>, id: int, other: int)
    requires FindIndex(vs, id) >= 0 && other != id
    ensures Find(Spliced(vs, FindIndex(vs, id)), other) == Find(vs, other)
  {
    var i := FindIndex(vs, id);
    var ws := Spliced(vs, i);
    var j := FindIndex(vs, other);
    if j == -1 {
      forall k | 0 <= k < |ws| ensures ws[k].id != other {
        if k >= i {
          assert ws[k] == vs[k + 1];
        }
      }
    } else if j < i {
      assert ws[j] == vs[j];
      assert FindIndex(ws, other) == j;
    } else {
      assert ws[j - 1] == vs[j];
      forall k | 0 <= k < j - 1 ensures ws[k].id != other {
        if k >= i {
          assert ws[k] == vs[k + 1];
        }
      }
      assert FindIndex(ws, other) == j - 1;
    }
  }

  /** Overwriting a record with one of the same id leaves every lookup on the same position, and ids unique if they were. */
  lemma FindAfterReplace(vs: seq<Video>, i: nat, v: Video, id: int)
    requires i < |vs| && v.id == vs[i].id
    ensures FindIndex(vs[i := v], id) == FindIndex(vs, id)
    ensures UniqueIds(vs) ==> UniqueIds(vs[i := v])
  {
    var ws := vs[i := v];
    assert forall k :: 0 <= k < |vs| ==> ws[k].id == vs[k].id;
  }

  /** The seed record satisfies the rules. */
  lemma SeedWellFormed()
    ensures WellFormed(Seed())
  {
  }

  /** A record built from an accepted create payload satisfies the rules. */
  lemma AcceptedCreateWellFormed(p: CreatePayload, v: Video)
    requires CreateErrors(p) == Checked([])
    requires v.title == p.title.value && v.author == p.author.value
    requires v.availableResolutions == CoercedResolutions(p.availableResolutions)
    ensures WellFormed(v)
  {
    CreateErrorsEmptyIff(p);
  }

  /**
   * The record PUT writes back: `{...v, title, author, availableResolutions,
   * canBeDownloaded, minAgeRestriction, publicationDate}` with the destructuring
   * defaults. It keeps the id and createdAt, and it satisfies the rules
   * whenever the payload is accepted.
   */
  function Rebuilt(v: Video, p: UpdatePayload): (r: Video)
    ensures r.id == v.id && r.createdAt == v.createdAt
    ensures r.title == p.title.GetOr("") && r.author == p.author.GetOr("")
    ensures r.availableResolutions == p.availableResolutions.GetOr([])
    ensures r.canBeDownloaded == p.canBeDownloaded.GetOr(false)
    ensures r.minAgeRestriction == p.minAgeRestriction
    ensures r.publicationDate == p.publicationDate.GetOr("")
    ensures UpdateErrors(p) == [] ==> WellFormed(r)
  {
    UpdateErrorsCharacterised(p);
    v.(title := p.title.GetOr(""),
       author := p.author.GetOr(""),
       availableResolutions := p.availableResolutions.GetOr([]),
       canBeDownloaded := p.canBeDownloaded.GetOr(false),
       minAgeRestriction := p.minAgeRestriction,
       publicationDate := p.publicationDate.GetOr(""))
  }

  class VideoStore {
    var videos: seq<Video>

    /** Every stored record satisfies the rules. */
    ghost predicate Valid()
      reads this
    {
      forall k :: 0 <= k < |videos| ==> WellFormed(videos[k])
    }

    /** The store as the module starts it: the seed record alone. */
    constructor ()
      ensures Valid() && videos == [Seed()]
      ensures UniqueIds(videos)
    {
      videos := [Seed()];
      SeedWellFormed();
    }

    /** GET /videos: the whole store, in insertion order. */
    method List() returns (all: seq<Video>)
      ensures all == videos
    {
      all := videos;
    }

    /** GET /videos/:id: the first record with the id, or a not-found with no errorsMessages entry. */
    method Get(id: int) returns (out: Outcome)
      ensures out.Found? || out == NotFound([])
      ensures out.NotFound? <==> forall k :: 0 <= k < |videos| ==> videos[k].id != id
      ensures out.Found? ==> out.video == videos[FindIndex(videos, id)] && out.video.id == id
    {
      var video := Find(videos, id);
      if video.None? {
        return NotFound([]);
      }
      out := Found(video.value);
    }

    /**
     * POST /videos with the clock's `id`, `createdAt` and `publicationDate`.
     * A payload that throws or draws errors leaves the store as it was; an
     * accepted one appends exactly one record, with defaults for the fields
     * the request cannot set.
     */
    method Create(p: CreatePayload, id: int, createdAt: string, publicationDate: string) returns (out: Outcome)
      requires Valid()
      modifies this
      ensures Valid()
      ensures CreateErrors(p).Threw? ==> out == Crashed && videos == old(videos)
      ensures CreateErrors(p).Checked? && CreateErrors(p).errors != [] ==>
        out == Invalid(CreateErrors(p).errors) && videos == old(videos)
      ensures CreateErrors(p) == Checked([]) ==>
        && out == Created(Video(id, p.title.value, p.author.value, false, None, createdAt, publicationDate,
                                CoercedResolutions(p.availableResolutions)))
        && videos == old(videos) + [out.video]
    {
      var check := ValidateCreate(p);
      if check.Threw? {
        return Crashed;
      }
      if check.errors != [] {
        return Invalid(check.errors);
      }
      CreateErrorsEmptyIff(p);
      var video := Video(id, p.title.value, p.author.value, false, None, createdAt, publicationDate,
                         CoercedResolutions(p.availableResolutions));
      AcceptedCreateWellFormed(p, video);
      videos := videos + [video];
      out := Created(video);
    }

    /**
     * PUT /videos/:id. An absent id is not found before the payload is looked
     * at; a payload with errors changes nothing; otherwise the record at the
     * found position is rebuilt from the payload, keeping its id and createdAt,
     * and no other record changes.
     */
    method Update(id: int, p: UpdatePayload) returns (out: Outcome)
      requires Valid()
      modifies this
      ensures Valid()
      ensures FindIndex(old(videos), id) == -1 ==> out == NotFound([NotFoundError]) && videos == old(videos)
      ensures FindIndex(old(videos), id) >= 0 && UpdateErrors(p) != [] ==>
        out == Invalid(UpdateErrors(p)) && videos == old(videos)
      ensures FindIndex(old(videos), id) >= 0 && UpdateErrors(p) == [] ==>
        var i := FindIndex(old(videos), id);
        out == NoContent && videos == old(videos)[i := Rebuilt(old(videos)[i], p)]
    {
      var i := FindIndex(videos, id);
      if i == -1 {
        return NotFound([NotFoundError]);
      }
      var errors := ValidateUpdate(p);
      if errors != [] {
        return Invalid(errors);
      }
      var updated := Rebuilt(videos[i], p);
      videos := videos[i := updated];
      out := NoContent;
    }

    /** DELETE /videos/:id: splice out the first record with the id, or report it not found. */
    method Delete(id: int) returns (out: Outcome)
      requires Valid()
      modifies this
      ensures Valid()
      ensures FindIndex(old(videos), id) == -1 ==> out == NotFound([NotFoundError]) && videos == old(videos)
      ensures FindIndex(old(videos), id) >= 0 ==>
        out == NoContent && videos == Spliced(old(videos), FindIndex(old(videos), id))
    {
      var i := FindIndex(videos, id);
      if i == -1 {
        return NotFound([NotFoundError]);
      }
      videos := Spliced(videos, i);
      out := NoContent;
    }

    /** DELETE /clear: empty the store. */
    method Clear() returns (out: Outcome)
      requires Valid()
      modifies this
      ensures Valid()
      ensures out == NoContent && videos == []
    {
      videos := [];
      out := NoContent;
    }
  }
}
