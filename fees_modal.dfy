/**
 * The fee-payment modal: three selectable items and a full/half tuition
 * choice feed whole-rupee totals, from which a fixed scholarship is deducted
 * without going below zero.
 */
module FeesModal {

  const TuitionFull: nat := 45000
  const TuitionHalf: nat := 22500
  const ActivityFee: nat := 2500
  const ExamFee: nat := 1800
  const LanguageFee: nat := 3500
  const LateFine: nat := 750
  const Scholarship: nat := 5000

  /** selectedItems: the academic bundle (tuition, activity, exam), the language course nested in it, the fine. */
  datatype Selection = Selection(academicBundle: bool, language: bool, fine: bool)

  datatype FeeKey = AcademicBundleKey | LanguageKey | FineKey

  function Flag(s: Selection, key: FeeKey): bool
  {
    match key
    case AcademicBundleKey => s.academicBundle
    case LanguageKey => s.language
    case FineKey => s.fine
  }

  /** toggleItem's update: `{ ...prev, [key]: !prev[key] }`. */
  function Toggle(s: Selection, key: FeeKey): (t: Selection)
    ensures Flag(t, key) == !Flag(s, key)
    ensures forall k :: k != key ==> Flag(t, k) == Flag(s, k)
  {
    match key
    case AcademicBundleKey => s.(academicBundle := !s.academicBundle)
    case LanguageKey => s.(language := !s.language)
    case FineKey => s.(fine := !s.fine)
  }

  /** Toggling the same item twice restores the selection. */
  lemma ToggleTwice(s: Selection, key: FeeKey)
    ensures Toggle(Toggle(s, key), key) == s
  {
  }

  /** The amounts shown in the modal. */
  datatype Breakdown = Breakdown(
    tuition: nat,
    activity: nat,
    exam: nat,
    language: nat,
    academicTotal: nat,
    subtotal: nat,
    totalPayable: nat)

  /** The component, subtotal and payable computation. */
  function Compute(s: Selection, payFullAcademic: bool): (b: Breakdown)
    ensures b.tuition == (if s.academicBundle then (if payFullAcademic then TuitionFull else TuitionHalf) else 0)
    ensures !s.academicBundle ==> b.tuition == 0 && b.activity == 0 && b.exam == 0 && b.language == 0
    ensures b.activity == (if s.academicBundle then ActivityFee else 0)
    ensures b.exam == (if s.academicBundle then ExamFee else 0)
    ensures b.language == (if s.academicBundle && s.language then LanguageFee else 0)
    ensures b.academicTotal == b.tuition + b.activity + b.exam + b.language
    ensures b.subtotal == b.tuition + b.activity + b.exam + b.language + (if s.fine then LateFine else 0)
    ensures b.totalPayable <= b.subtotal
    ensures b.totalPayable == 0 <==> b.subtotal <= Scholarship
    ensures b.totalPayable > 0 ==> b.totalPayable + Scholarship == b.subtotal
  {
    var tuitionAmount := if payFullAcademic then TuitionFull else TuitionHalf;
    var currentTuition := if s.academicBundle then tuitionAmount else 0;
    var currentActivity := if s.academicBundle then ActivityFee else 0;
    var currentExam := if s.academicBundle then ExamFee else 0;
    var currentLanguage := if s.academicBundle && s.language then LanguageFee else 0;
    var academicSectionTotal := currentTuition + currentActivity + currentExam + currentLanguage;
    var subtotal := academicSectionTotal + (if s.fine then LateFine else 0);
    var totalPayable := if subtotal - Scholarship > 0 then subtotal - Scholarship else 0;
    Breakdown(currentTuition, currentActivity, currentExam, currentLanguage,
              academicSectionTotal, subtotal, totalPayable)
  }

  /** "Includes ₹5,000 scholarship" is shown exactly when something is selected to pay for. */
  predicate ShowsScholarshipNote(s: Selection, payFullAcademic: bool)
  {
    Scholarship > 0 && Compute(s, payFullAcademic).subtotal > 0
  }

  lemma ScholarshipNoteIff(s: Selection, payFullAcademic: bool)
    ensures ShowsScholarshipNote(s, payFullAcademic) <==> s.academicBundle || s.fine
  {
  }

  /** Selecting one more item never lowers the amount payable. */
  lemma SelectingNeverLowersTotal(s: Selection, key: FeeKey, payFullAcademic: bool)
    requires !Flag(s, key)
    ensures Compute(Toggle(s, key), payFullAcademic).totalPayable >= Compute(s, payFullAcademic).totalPayable
  {
  }

  /** Paying the tuition in full never costs less than paying half. */
  lemma FullTuitionNeverCheaper(s: Selection)
    ensures Compute(s, true).totalPayable >= Compute(s, false).totalPayable
  {
  }

  /** The three worked examples: everything in full, everything with half tuition, only the fine. */
  lemma Examples()
    ensures Compute(Selection(true, true, true), true).totalPayable == 48550
    ensures Compute(Selection(true, true, true), false).totalPayable == 26050
    ensures Compute(Selection(false, true, true), true).totalPayable == 0
    ensures Compute(Selection(false, true, true), true).language == 0
  {
  }

  /** The modal's state: the installment choice and the selection. */
  class FeesState {
    var payFullAcademic: bool
    var selectedItems: Selection

    constructor ()
      ensures payFullAcademic && selectedItems == Selection(true, true, true)
    {
      payFullAcademic := true;
      selectedItems := Selection(true, true, true);
    }

    /** toggleItem(key). */
    method ToggleItem(key: FeeKey)
      modifies this`selectedItems
      ensures selectedItems == Toggle(old(selectedItems), key)
    {
      selectedItems := Toggle(selectedItems, key);
    }

    /** The "Full" and "Half" buttons. */
    method SetPayFullAcademic(full: bool)
      modifies this`payFullAcademic
      ensures payFullAcademic == full
    {
      payFullAcademic := full;
    }

    /** What the modal shows for the current state. */
    function Current(): (b: Breakdown)
      reads this
      ensures b.totalPayable <= b.subtotal
    {
      Compute(selectedItems, payFullAcademic)
    }
  }
}
