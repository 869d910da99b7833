/**
 * The application controller (App.tsx): it owns the `medications` and
 * `history` collections and changes them in exactly three ways. Fresh
 * identifiers (`crypto.randomUUID()`) and the clock (`Date.now()`) are
 * parameters of the handlers.
 */
module App {
  import opened Types
  import opened Sequences
  import MedicationForm

  /** `meds.filter(med => med.id !== id)`. */
  function RemoveById(meds: seq<Medication>, id: string): (r: seq<Medication>)
    ensures forall m :: m in r <==> m in meds && m.id != id
    decreases |meds|
  {
    if meds == [] then []
    else
      var last := meds[|meds| - 1];
      RemoveById(meds[..|meds| - 1], id) + (if last.id != id then [last] else [])
  }

  /** Deleting keeps the surviving medications in their original relative order. */
  lemma {:induction false} RemoveByIdKeepsOrder(meds: seq<Medication>, id: string)
    ensures IsSubsequence(RemoveById(meds, id), meds)
    decreases |meds|
  {
    if meds == [] {
      EmptyIsSubsequence(meds);
    } else {
      var init, last := meds[..|meds| - 1], meds[|meds| - 1];
      assert meds == init + [last];
      RemoveByIdKeepsOrder(init, id);
      if last.id != id {
        SubsequenceBothLonger(RemoveById(init, id), init, last);
      } else {
        assert RemoveById(meds, id) == RemoveById(init, id);
        SubsequenceOfLonger(RemoveById(init, id), init, last);
      }
    }
  }

  /** Every medication with the id is gone; every other one is kept as often as it occurred. */
  lemma {:induction false} RemoveByIdCounts(meds: seq<Medication>, id: string, m: Medication)
    ensures multiset(RemoveById(meds, id))[m] == if m.id == id then 0 else multiset(meds)[m]
    decreases |meds|
  {
    if meds != [] {
      var init, last := meds[..|meds| - 1], meds[|meds| - 1];
      assert meds == init + [last];
      RemoveByIdCounts(init, id, m);
    }
  }

  /** Deleting an id that no medication carries changes nothing. */
  lemma {:induction false} RemoveAbsentId(meds: seq<Medication>, id: string)
    requires id !in MedicationIds(meds)
    ensures RemoveById(meds, id) == meds
    decreases |meds|
  {
    if meds != [] {
      var init, last := meds[..|meds| - 1], meds[|meds| - 1];
      assert meds == init + [last];
      assert last in meds;
      assert MedicationIds(init) <= MedicationIds(meds);
      RemoveAbsentId(init, id);
    }
  }

  /** Deleting cannot introduce two medications with one id. */
  lemma RemovePreservesUniqueIds(meds: seq<Medication>, id: string)
    requires UniqueMedicationIds(meds)
    ensures UniqueMedicationIds(RemoveById(meds, id))
  {
    RemoveByIdKeepsOrder(meds, id);
    var r := RemoveById(meds, id);
    var f: seq<nat> :| IsEmbedding(r, meds, f);
    forall i, j | 0 <= i < j < |r| ensures r[i].id != r[j].id {
      assert r[i] == meds[f[i]] && r[j] == meds[f[j]] && f[i] < f[j];
    }
  }

  /**
   * Adding appends exactly one medication: the submitted fields with the new
   * id. For a fresh id the ids stay unique.
   */
  lemma AddAppendsOne(meds: seq<Medication>, draft: MedicationDraft, id: string)
    ensures var r := meds + [draft.WithId(id)];
      && |r| == |meds| + 1
      && r[..|meds|] == meds
      && r[|meds|].id == id
      && r[|meds|].name == draft.name && r[|meds|].dosage == draft.dosage
      && r[|meds|].timesPerDay == draft.timesPerDay && r[|meds|].info == draft.info
    ensures UniqueMedicationIds(meds) && id !in MedicationIds(meds)
            ==> UniqueMedicationIds(meds + [draft.WithId(id)])
  {
    var r := meds + [draft.WithId(id)];
    if UniqueMedicationIds(meds) && id !in MedicationIds(meds) {
      forall i, j | 0 <= i < j < |r| ensures r[i].id != r[j].id {
        if j == |meds| {
          assert r[i] == meds[i];
          assert meds[i].id in MedicationIds(meds);
        }
      }
    }
  }

  /** Taking a dose appends exactly one entry; earlier history is untouched. */
  lemma TakeAppendsOne(history: seq<HistoryEntry>, entryId: string, medicationId: string, now: nat)
    ensures var r := history + [HistoryEntry(entryId, medicationId, now)];
      && |r| == |history| + 1
      && r[..|history|] == history
      && r[|history|].id == entryId
      && r[|history|].medicationId == medicationId && r[|history|].timestamp == now
    ensures UniqueEntryIds(history) && entryId !in EntryIds(history)
            ==> UniqueEntryIds(history + [HistoryEntry(entryId, medicationId, now)])
  {
    var r := history + [HistoryEntry(entryId, medicationId, now)];
    if UniqueEntryIds(history) && entryId !in EntryIds(history) {
      forall i, j | 0 <= i < j < |r| ensures r[i].id != r[j].id {
        if j == |history| {
          assert r[i] == history[i];
          assert history[i].id in EntryIds(history);
        }
      }
    }
  }

  /** The two collections the App component keeps in local storage. */
  class AppState {
    var medications: seq<Medication>
    var history: seq<HistoryEntry>

    /** Identifiers are unique in both collections. */
    ghost predicate Valid()
      reads this
    {
      UniqueMedicationIds(medications) && UniqueEntryIds(history)
    }

    /** Starts from whatever the store loaded (empty when nothing was saved). */
    constructor (storedMedications: seq<Medication>, storedHistory: seq<HistoryEntry>)
      ensures medications == storedMedications && history == storedHistory
    {
      medications := storedMedications;
      history := storedHistory;
    }

    /** handleAddMedication: `freshId` is the value of `crypto.randomUUID()`. */
    method AddMedication(draft: MedicationDraft, freshId: string)
      requires freshId !in MedicationIds(medications)
      modifies this
      ensures medications == old(medications) + [draft.WithId(freshId)]
      ensures history == old(history)
      ensures old(Valid()) ==> Valid()
    {
      AddAppendsOne(medications, draft, freshId);
      medications := medications + [draft.WithId(freshId)];
    }

    /** handleDeleteMedication: history is deliberately left alone. */
    method DeleteMedication(medicationId: string)
      modifies this
      ensures medications == RemoveById(old(medications), medicationId)
      ensures history == old(history)
      ensures old(Valid()) ==> Valid()
    {
      if UniqueMedicationIds(medications) {
        RemovePreservesUniqueIds(medications, medicationId);
      }
      medications := RemoveById(medications, medicationId);
    }

    /**
     * handleTakeMedication: `freshId` is `crypto.randomUUID()` and `now` is
     * `Date.now()`. The medication id is not checked against `medications`.
     */
    method TakeMedication(medicationId: string, freshId: string, now: nat)
      requires freshId !in EntryIds(history)
      modifies this
      ensures history == old(history) + [HistoryEntry(freshId, medicationId, now)]
      ensures medications == old(medications)
      ensures old(Valid()) ==> Valid()
    {
      TakeAppendsOne(history, freshId, medicationId, now);
      history := history + [HistoryEntry(freshId, medicationId, now)];
    }

    /**
     * The add modal: the form's submit feeds `onAdd={handleAddMedication}`
     * and `onClose`. A rejected submit leaves both collections as they were;
     * an accepted one adds the submitted draft and closes the modal.
     */
    method SubmitAddForm(form: MedicationForm.AddMedicationForm, freshId: string) returns (closeModal: bool)
      requires freshId !in MedicationIds(medications)
      modifies this, form`error
      ensures closeModal <==> MedicationForm.SubmitAccepted(form.name, form.dosage, form.timesPerDay)
      ensures closeModal ==>
        medications == old(medications) + [Medication(freshId, form.name, form.dosage, form.timesPerDay, form.info)]
      ensures !closeModal ==> medications == old(medications)
      ensures !closeModal ==> form.error == Some(MedicationForm.FillAllFieldsMessage)
      ensures closeModal ==> form.error == old(form.error)
      ensures history == old(history)
      ensures old(Valid()) ==> Valid()
    {
      var effect := form.Submit();
      match effect {
        case Rejected =>
          closeModal := false;
        case AddThenClose(draft) =>
          AddMedication(draft, freshId);
          closeModal := true;
      }
    }
  }
}
