/** The result record every provider produces and the palette displays,
    sorts and executes. */
module Results {

  datatype Option<T> = None | Some(value: T)

  /** What `result.action` holds. Only a function is called; what it does is
      opaque to the palette, so a callable action is known by an identifier,
      together with whether calling it throws. */
  datatype Action = NotCallable | Callable(id: nat, fails: bool)

  /** One entry of a result list. `description`, `category`, `relevance` and
      `keepOpen` are optional in the source; `keywords` is the command
      provider's keyword list, empty when a record has none. Icons and
      shortcut labels are presentation only and are not kept. */
  datatype Result = Result(
    title: string,
    description: Option<string>,
    keywords: seq<string>,
    category: Option<string>,
    relevance: Option<real>,
    action: Action,
    keepOpen: Option<bool>)

  /** `result.relevance || 0`: the sort key, a missing relevance counting
      as zero. */
  function Key(r: Result): (k: real)
    ensures r.relevance.None? ==> k == 0.0
    ensures r.relevance.Some? ==> k == r.relevance.value
  {
    match r.relevance
    case None => 0.0
    case Some(v) => v
  }

  /** The titles of a result list, in order: what the rendered rows show. */
  function Titles(rs: seq<Result>): (ts: seq<string>)
    ensures |ts| == |rs|
    ensures forall i :: 0 <= i < |rs| ==> ts[i] == rs[i].title
  {
    seq(|rs|, i requires 0 <= i < |rs| => rs[i].title)
  }
}
