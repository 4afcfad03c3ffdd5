/** Request sequences against a fresh store, stated as assertions on what the handlers answer. */
module Scenarios {
  import opened Wrappers
  import opened Text
  import opened Validation
  import opened Store

  /**
   * POST {title: "a", author: "b", availableResolutions: ["P144"]} is created
   * with the defaults; GET of its id answers it; after DELETE /clear neither it
   * nor the seed is found.
   */
  method CreateGetClear(now: int, createdAt: string, publicationDate: string)
    requires now != 0
  {
    var store := new VideoStore();
    var p := CreatePayload(Some("a"), Some("b"), Some(["P144"]));
    var b: string := "b";
    TrimOfTrimmed(b);
    assert UnknownTagErrors(["P144"]) == [];
    var created := store.Create(p, now, createdAt, publicationDate);
    assert created == Created(Video(now, "a", "b", false, None, createdAt, publicationDate, ["P144"]));
    FindAfterAppend([Seed()], created.video, now);
    var got := store.Get(now);
    assert got == Found(created.video);
    var cleared := store.Clear();
    var gone := store.Get(now);
    var seed := store.Get(0);
    assert gone == NotFound([]) && seed == NotFound([]);
  }

  /** POST with an empty title is rejected, and PUT with no resolutions is rejected, leaving the store as it was. */
  method Rejections(q: UpdatePayload)
    requires q.availableResolutions == Some([])
  {
    var store := new VideoStore();
    var created := store.Create(CreatePayload(Some(""), Some("b"), None), 1, "", "");
    assert created.Invalid? && created.errors[0] == CreateTitleError;
    assert store.videos == [Seed()];
    var updated := store.Update(0, q);
    assert updated.Invalid? && ResolutionsError in updated.errors;
    assert store.videos == [Seed()];
    var missing := store.Update(7, q);
    assert missing == NotFound([NotFoundError]);
  }
}
