/**
 * The records the tracker stores (types.ts), and the two facts about them
 * that the rest of the model shares: how identifiers are kept unique, and
 * what is assumed of the local calendar.
 */
module Types {

  datatype Option<T> = None | Some(value: T)

  /** Enrichment text fetched for a medication. */
  datatype MedicationInfo = MedicationInfo(uses: seq<string>, sideEffects: seq<string>)

  /** A tracked medication; `timesPerDay` is the daily dose target. */
  datatype Medication = Medication(
    id: string,
    name: string,
    dosage: string,
    timesPerDay: int,
    info: Option<MedicationInfo>)

  /** A medication without its identifier: what the add form hands to the controller. */
  datatype MedicationDraft = MedicationDraft(
    name: string,
    dosage: string,
    timesPerDay: int,
    info: Option<MedicationInfo>)
  {
    /** The record `{...draft, id}`. */
    function WithId(id: string): Medication {
      Medication(id, name, dosage, timesPerDay, info)
    }
  }

  /** One recorded dose. `timestamp` is milliseconds since the epoch. */
  datatype HistoryEntry = HistoryEntry(id: string, medicationId: string, timestamp: nat)

  function MedicationIds(meds: seq<Medication>): set<string> {
    set m | m in meds :: m.id
  }

  function EntryIds(history: seq<HistoryEntry>): set<string> {
    set e | e in history :: e.id
  }

  ghost predicate UniqueMedicationIds(meds: seq<Medication>) {
    forall i, j :: 0 <= i < j < |meds| ==> meds[i].id != meds[j].id
  }

  ghost predicate UniqueEntryIds(history: seq<HistoryEntry>) {
    forall i, j :: 0 <= i < j < |history| ==> history[i].id != history[j].id
  }

  /**
   * The local calendar is a parameter `dayOf` that maps a timestamp to the
   * number of its local calendar day. A later instant never falls on an
   * earlier day.
   */
  ghost predicate Monotone(dayOf: nat -> int) {
    forall a: nat, b: nat :: a <= b ==> dayOf(a) <= dayOf(b)
  }
}
