/** The analysis record and the controller's most-recent-first history of
    them (app.js, lines 192-207 and 403-405). */
module History {
  import opened Wrappers
  import opened Interpretation
  import Recommendations

  /** One analysis as the controller stores it. `id` is the submission's
      `Date.now()` value and `timestamp` its ISO-8601 time; neither is
      checked for uniqueness. `apiAnalysisId` is the optional server-side
      identifier that feedback correlates against. */
  datatype Analysis = Analysis(
    id: int,
    input: string,
    emotionalState: EmotionalState,
    severity: Severity,
    confidence: real,
    explanation: string,
    keywords: seq<string>,
    recommendations: seq<Recommendations.Resource>,
    timestamp: string,
    apiAnalysisId: Option<string>)

  /** Index of the first record whose id is `id` (`Array.prototype.find`
      scans from the front, that is from the most recent record). */
  function FirstIndexOf(h: seq<Analysis>, id: int): (r: Option<nat>)
    ensures r.None? <==> forall i :: 0 <= i < |h| ==> h[i].id != id
    ensures r.Some? ==> r.value < |h| && h[r.value].id == id
    ensures r.Some? ==> forall j :: 0 <= j < r.value ==> h[j].id != id
  {
    if h == [] then None
    else if h[0].id == id then Some(0)
    else match FirstIndexOf(h[1..], id)
      case None => None
      case Some(k) => Some(k + 1)
  }

  /** `history.find(item => item.id === id)`. */
  function FindById(h: seq<Analysis>, id: int): (r: Option<Analysis>)
    ensures r.None? <==> forall i :: 0 <= i < |h| ==> h[i].id != id
    ensures r.Some? ==> exists i :: 0 <= i < |h| && h[i] == r.value && r.value.id == id
                                    && forall j :: 0 <= j < i ==> h[j].id != id
  {
    match FirstIndexOf(h, id)
    case None => None
    case Some(k) => Some(h[k])
  }

  /** Relation between lookup and the prepend that adds a record: the new
      record answers for its own id and shadows any older record with the
      same id (ids come from the clock and may collide); every other id is
      answered as before. */
  lemma {:induction false} FindAfterPrepend(a: Analysis, h: seq<Analysis>, id: int)
    ensures FindById([a] + h, id) == if a.id == id then Some(a) else FindById(h, id)
  {
    var h' := [a] + h;
    assert h'[1..] == h;
    if a.id != id {
      match FirstIndexOf(h, id)
      case None =>
      case Some(k) =>
        assert h'[k + 1] == h[k];
    }
  }
}
