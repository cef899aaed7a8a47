/** Lazy, load-once construction of the sentence-embedding model, the pattern
    shared by `AIBrowserApp.get_embedding_model`, app.py's module-level
    `get_embedding_model` and database.py's `generate_embedding`. */
module LazyModel {

  /** The cached model slot: `None` until the first call constructs one. */
  datatype Slot<M> = Unloaded | Loaded(model: M)

  /** One call. `made` is the instance `SentenceTransformer(...)` would return
      if it were called now; the result is the instance handed back, the new
      slot, and whether a construction happened. */
  function Get<M>(slot: Slot<M>, made: M): (r: (M, Slot<M>, bool))
    ensures r.1 == Loaded(r.0)
    ensures r.2 <==> slot.Unloaded?
    ensures slot.Loaded? ==> r.0 == slot.model && r.1 == slot
    ensures slot.Unloaded? ==> r.0 == made
  {
    match slot
    case Unloaded => (made, Loaded(made), true)
    case Loaded(m) => (m, slot, false)
  }

  /** A run of successive calls, `made[i]` standing for what a construction
      would produce at call `i`: the instances returned, the final slot and the
      number of constructions. */
  function GetEach<M>(slot: Slot<M>, made: seq<M>): (r: (seq<M>, Slot<M>, nat))
    ensures |r.0| == |made|
    ensures |made| > 0 ==> r.1.Loaded?
    ensures |made| == 0 ==> r.1 == slot
    decreases |made|
  {
    if made == [] then ([], slot, 0)
    else
      var (m, slot', built) := Get(slot, made[0]);
      var (rest, final, count) := GetEach(slot', made[1..]);
      ([m] + rest, final, count + (if built then 1 else 0))
  }

  /** However many calls are made, the model is constructed at most once
      (exactly once when the slot starts empty), and every call returns the
      same instance as the first. */
  lemma {:induction false} ConstructedAtMostOnce<M>(slot: Slot<M>, made: seq<M>)
    ensures var (ms, final, count) := GetEach(slot, made);
      && count == (if slot.Unloaded? && |made| > 0 then 1 else 0)
      && (forall i :: 0 <= i < |ms| ==> ms[i] == ms[0])
      && (|made| > 0 ==> final == Loaded(ms[0]))
      && (slot.Loaded? ==> forall i :: 0 <= i < |ms| ==> ms[i] == slot.model)
    decreases |made|
  {
    if made != [] {
      var (m, slot', built) := Get(slot, made[0]);
      ConstructedAtMostOnce(slot', made[1..]);
    }
  }
}
