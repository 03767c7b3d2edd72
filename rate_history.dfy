/**
 * Language-pair rates and their approval history: the `updated` hook of
 * `LanguagePairsRateObserver` appends a history row whenever a save changes
 * a rate's final (approved) price to a non-null value; the `created` hook
 * does nothing.
 */
module RateHistory {
  import opened Wrappers

  /** The largest magnitude a `decimal(8,2)` column holds, in hundredths. */
  const MaxCents: int := 99999999

  /** A `decimal(8,2)` amount, held exactly as a whole number of hundredths. */
  type Cents = c: int | -MaxCents <= c <= MaxCents

  /** A row of `language_pairs_rates`. */
  datatype LanguagePairsRate = LanguagePairsRate(
    id: int,
    userId: int,
    sourceLanguageId: int,
    targetLanguageId: int,
    serviceId: int,
    proposedRate: Option<Cents>,
    finalRate: Option<Cents>,
    machineTranslationExperience: bool,
    approvedBy: Option<int>,
    approvalReferenceEmail: Option<string>)
  {
    /** The columns of the table's unique index. */
    function Key(): (int, int, int, int) {
      (userId, sourceLanguageId, targetLanguageId, serviceId)
    }
  }

  /** A row of `language_pairs_rate_histories`. */
  datatype HistoryEntry = HistoryEntry(
    languagePairId: int,
    oldRate: Option<Cents>,
    newRate: Cents,
    changedBy: Option<int>,
    changeType: string,
    notes: string)

  const ApprovedChangeType: string := "approved"
  const ApprovedNotes: string := "Rate approved."

  /** The observer's guard: the save changed `final_rate`, and the new value is not null. */
  predicate RecordsApproval(original: Option<Cents>, current: Option<Cents>) {
    original != current && current.Some?
  }

  /**
   * The history table after the `updated` event of a save that took `rate`'s
   * final rate from `original` to its current value; `actor` is the signed-in
   * user, if any.
   */
  function HistoryAfterUpdate(history: seq<HistoryEntry>, original: Option<Cents>, rate: LanguagePairsRate, actor: Option<int>): (r: seq<HistoryEntry>)
    ensures |history| <= |r| <= |history| + 1 && r[..|history|] == history
    ensures |r| == |history| + 1 <==> original != rate.finalRate && rate.finalRate.Some?
    ensures |r| == |history| + 1 ==>
      r[|history|] == HistoryEntry(rate.id, original, rate.finalRate.value, actor, "approved", "Rate approved.")
  {
    if RecordsApproval(original, rate.finalRate) then
      history + [HistoryEntry(rate.id, original, rate.finalRate.value, actor, ApprovedChangeType, ApprovedNotes)]
    else
      history
  }

  /** Clearing an approved rate back to null leaves no trace in the history. */
  lemma ClearingRateRecordsNothing(history: seq<HistoryEntry>, original: Option<Cents>, rate: LanguagePairsRate, actor: Option<int>)
    requires rate.finalRate.None?
    ensures HistoryAfterUpdate(history, original, rate, actor) == history
  {
  }

  /** Re-saving the same final rate records nothing. */
  lemma UnchangedRateRecordsNothing(history: seq<HistoryEntry>, rate: LanguagePairsRate, actor: Option<int>)
    ensures HistoryAfterUpdate(history, rate.finalRate, rate, actor) == history
  {
  }

  /** The history of a rate as it goes from null to 100.00, to 120.00, and to 120.00 again: two rows, chained. */
  lemma ApprovalSequence(history: seq<HistoryEntry>, rate: LanguagePairsRate, actor: Option<int>)
    requires rate.finalRate.None?
    ensures var r1 := rate.(finalRate := Some(10000));
            var r2 := rate.(finalRate := Some(12000));
            var h1 := HistoryAfterUpdate(history, rate.finalRate, r1, actor);
            var h2 := HistoryAfterUpdate(h1, r1.finalRate, r2, actor);
            var h3 := HistoryAfterUpdate(h2, r2.finalRate, r2, actor);
            h3 == history + [
              HistoryEntry(rate.id, None, 10000, actor, "approved", "Rate approved."),
              HistoryEntry(rate.id, Some(10000), 12000, actor, "approved", "Rate approved.")]
  {
  }

  datatype RateError = DuplicateRate

  /** The `language_pairs_rates` and `language_pairs_rate_histories` tables, with the observer attached to the first. */
  class RateBook {
    var rates: map<int, LanguagePairsRate>
    var nextId: int
    var history: seq<HistoryEntry>

    /** Ids are keys below the next id, the unique index holds, and every history row points at an existing rate. */
    predicate Valid()
      reads this
    {
      && 1 <= nextId
      && (forall id :: id in rates ==> rates[id].id == id && 1 <= id < nextId)
      && (forall a, b :: a in rates && b in rates && rates[a].Key() == rates[b].Key() ==> a == b)
      && (forall i :: 0 <= i < |history| ==> history[i].languagePairId in rates)
    }

    constructor ()
      ensures Valid() && rates == map[] && history == [] && nextId == 1
    {
      rates := map[];
      nextId := 1;
      history := [];
    }

    /** Whether a rate with this unique key already exists. */
    predicate Taken(key: (int, int, int, int))
      reads this
    {
      exists id :: id in rates && rates[id].Key() == key
    }

    /**
     * Inserting a rate. The unique index refuses a second row for the same
     * user, language pair and service; the `created` hook writes no history.
     */
    method Create(userId: int, sourceLanguageId: int, targetLanguageId: int, serviceId: int,
                  proposedRate: Option<Cents>, finalRate: Option<Cents>,
                  machineTranslationExperience: bool, approvedBy: Option<int>, approvalReferenceEmail: Option<string>)
      returns (r: Result<int, RateError>)
      requires Valid()
      modifies this
      ensures Valid()
      ensures history == old(history)
      ensures r.Failure? <==> old(Taken((userId, sourceLanguageId, targetLanguageId, serviceId)))
      ensures r.Failure? ==> rates == old(rates) && nextId == old(nextId)
      ensures r.Success? ==> r.value == old(nextId) && nextId == old(nextId) + 1
      ensures r.Success? ==>
        rates == old(rates)[r.value := LanguagePairsRate(r.value, userId, sourceLanguageId, targetLanguageId, serviceId,
          proposedRate, finalRate, machineTranslationExperience, approvedBy, approvalReferenceEmail)]
    {
      var key := (userId, sourceLanguageId, targetLanguageId, serviceId);
      if exists id | id in rates :: rates[id].Key() == key {
        return Failure(DuplicateRate);
      }
      var row := LanguagePairsRate(nextId, userId, sourceLanguageId, targetLanguageId, serviceId,
        proposedRate, finalRate, machineTranslationExperience, approvedBy, approvalReferenceEmail);
      rates := rates[nextId := row];
      r := Success(nextId);
      nextId := nextId + 1;
    }

    /** The observer's `updated` hook, given the final rate before the save and the row after it. */
    method Updated(original: Option<Cents>, rate: LanguagePairsRate, actor: Option<int>)
      requires Valid() && rate.id in rates
      modifies this`history
      ensures Valid()
      ensures history == HistoryAfterUpdate(old(history), original, rate, actor)
    {
      if original != rate.finalRate {
        if rate.finalRate.Some? {
          history := history + [HistoryEntry(rate.id, original, rate.finalRate.value, actor, ApprovedChangeType, ApprovedNotes)];
        }
      }
    }

    /** Saving new proposed and final rates on an existing row, which fires the `updated` hook. */
    method SaveRates(id: int, proposedRate: Option<Cents>, finalRate: Option<Cents>, actor: Option<int>)
      requires Valid() && id in rates
      modifies this
      ensures Valid()
      ensures nextId == old(nextId)
      ensures rates == old(rates)[id := old(rates)[id].(proposedRate := proposedRate, finalRate := finalRate)]
      ensures history == HistoryAfterUpdate(old(history), old(rates)[id].finalRate, rates[id], actor)
    {
      var original := rates[id].finalRate;
      var row := rates[id].(proposedRate := proposedRate, finalRate := finalRate);
      rates := rates[id := row];
      Updated(original, row, actor);
    }
  }
}
