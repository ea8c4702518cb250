/** The application state: the current form record, the last score and
    recommendation, the loading flag, the error message and the history of
    scored leads, newest first; and the handlers that change them. */
module App {
  import opened Wrappers
  import opened Types
  import opened Constants
  import opened Scoring
  import opened Labels

  /** How the call for recommendations ended: it returned a record, or it
      threw. The call itself (a remote service) is not part of this model. */
  datatype RecommendationOutcome = Returned(rec: Recommendations) | Threw

  /** The message shown when the recommendations could not be produced. */
  const RecommendationError: string := "Hubo un error al generar las recomendaciones. Por favor, intente de nuevo."

  /** A history entry as the scoring handler builds it: its score and its
      readable copy are those of its own answers. */
  ghost predicate Consistent(h: HistoricLead) {
    h.scoreResult == Score(h.formData) && h.readableData == Translate(h.formData)
  }

  /** Every entry of `hs` is consistent. */
  ghost predicate AllConsistent(hs: seq<HistoricLead>) {
    hs == [] || (Consistent(hs[0]) && AllConsistent(hs[1..]))
  }

  /** The history is consistent exactly when each of its entries is. */
  lemma {:induction false} AllConsistentIff(hs: seq<HistoricLead>)
    ensures AllConsistent(hs) <==> forall k :: 0 <= k < |hs| ==> Consistent(hs[k])
  {
    if hs != [] {
      AllConsistentIff(hs[1..]);
      assert forall k :: 1 <= k < |hs| ==> hs[1..][k - 1] == hs[k];
    }
  }

  /** The entry `handleScore` builds for `data` at time `now`. */
  function NewEntry(now: string, data: LeadData, rec: Recommendations): (h: HistoricLead)
    ensures Consistent(h)
    ensures h.id == now && h.formData == data && h.recommendations == rec
  {
    HistoricLead(now, data, Translate(data), Score(data), rec)
  }

  /** Putting a new entry in front of a consistent history keeps it
      consistent. */
  lemma PrependConsistent(now: string, data: LeadData, rec: Recommendations, hs: seq<HistoricLead>)
    requires AllConsistent(hs)
    ensures AllConsistent([NewEntry(now, data, rec)] + hs)
  {
    assert ([NewEntry(now, data, rec)] + hs)[1..] == hs;
  }

  class App {
    var leadData: LeadData
    var scoreResult: Option<ScoreResult>
    var recommendations: Option<Recommendations>
    var isLoading: bool
    var error: Option<string>
    var leadHistory: seq<HistoricLead>

    /** Every history entry was scored and translated from its own answers. */
    ghost predicate Valid()
      reads this
    {
      AllConsistent(leadHistory)
    }

    /** The first render: the empty form, nothing scored, no error, an
        empty history (restoring a saved history is not modelled). */
    constructor()
      ensures leadData == InitialLeadData
      ensures scoreResult.None? && recommendations.None? && error.None? && !isLoading
      ensures leadHistory == []
      ensures Valid()
    {
      leadData := InitialLeadData;
      scoreResult := None;
      recommendations := None;
      isLoading := false;
      error := None;
      leadHistory := [];
    }

    /** `handleScore`: score the submitted record, translate it, ask for
        recommendations; on success show them and put a new entry, stamped
        `now`, at the front of the history; on failure show the error
        message and leave the history alone. The form record is untouched. */
    method HandleScore(data: LeadData, now: string, outcome: RecommendationOutcome)
      modifies this
      ensures old(Valid()) ==> Valid()
      ensures scoreResult == Some(Score(data))
      ensures leadData == old(leadData) && !isLoading
      ensures outcome.Returned? ==>
                && recommendations == Some(outcome.rec)
                && error.None?
                && leadHistory == [NewEntry(now, data, outcome.rec)] + old(leadHistory)
      ensures outcome.Threw? ==>
                && recommendations.None?
                && error == Some(RecommendationError)
                && leadHistory == old(leadHistory)
    {
      ghost var history := leadHistory;
      var newScoreResult := ScoreLead(data);
      var readableData := Translate(data);
      Settle(data, now, outcome, newScoreResult, readableData);
      if outcome.Returned? && AllConsistent(history) {
        PrependConsistent(now, data, outcome.rec, history);
      }
    }

    /** The state changes of `handleScore` once the record is scored and
        translated. */
    method Settle(data: LeadData, now: string, outcome: RecommendationOutcome, score: ScoreResult, readable: LeadData)
      modifies this
      ensures scoreResult == Some(score)
      ensures leadData == old(leadData) && !isLoading
      ensures outcome.Returned? ==>
                && recommendations == Some(outcome.rec)
                && error.None?
                && leadHistory == [HistoricLead(now, data, readable, score, outcome.rec)] + old(leadHistory)
      ensures outcome.Threw? ==>
                && recommendations.None?
                && error == Some(RecommendationError)
                && leadHistory == old(leadHistory)
    {
      isLoading := true;
      error := None;
      scoreResult := None;
      recommendations := None;
      scoreResult := Some(score);
      match outcome {
        case Returned(rec) =>
          recommendations := Some(rec);
          leadHistory := [HistoricLead(now, data, readable, score, rec)] + leadHistory;
        case Threw =>
          error := Some(RecommendationError);
      }
      isLoading := false;
    }

    /** `handleClearHistory`: the history is emptied when the user confirms
        and kept otherwise; nothing else changes. */
    method HandleClearHistory(confirmed: bool)
      modifies this
      ensures old(Valid()) ==> Valid()
      ensures leadHistory == if confirmed then [] else old(leadHistory)
      ensures leadData == old(leadData) && scoreResult == old(scoreResult)
      ensures recommendations == old(recommendations) && error == old(error) && isLoading == old(isLoading)
    {
      if confirmed {
        leadHistory := [];
      }
    }

    /** `handleReset`: back to the empty form with nothing scored and no
        error; the history is kept. */
    method HandleReset()
      modifies this
      ensures old(Valid()) ==> Valid()
      ensures leadData == InitialLeadData
      ensures scoreResult.None? && recommendations.None? && error.None? && !isLoading
      ensures leadHistory == old(leadHistory)
    {
      ghost var history := leadHistory;
      leadData := InitialLeadData;
      scoreResult := None;
      recommendations := None;
      error := None;
      isLoading := false;
      assert leadHistory == history;
    }
  }
}
