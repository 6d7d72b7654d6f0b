/** The booking dialog of the dashboard page (`src/pages/Dashboard.jsx`): a
    travel option is chosen, "Proceed to Payment" moves to a processing step,
    and a 1200 ms timer moves on to the confirmation. The timer is an explicit
    event; `pendingTimers` counts the callbacks scheduled and not yet run.
    Nothing ever cancels them. */
module PaymentDialog {
  import opened Common

  /** An entry of the dashboard's travel option list. */
  datatype TravelOption = TravelOption(id: int, kind: string, name: string, price: int)

  /** What the open dialog shows. */
  datatype Panel = Hidden | Offer | Processing | Confirmation | Blank

  /** The panel shown for a state: the dialog only renders when shown, and
      then one of the three `modalType === "book" && step === k` blocks, or
      nothing if none applies. */
  function PanelFor(showModal: bool, modalType: string, step: int): (p: Panel)
    ensures p == Offer <==> showModal && modalType == "book" && step == 1
    ensures p == Processing <==> showModal && modalType == "book" && step == 2
    ensures p == Confirmation <==> showModal && modalType == "book" && step == 3
    ensures p == Hidden <==> !showModal
  {
    if !showModal then Hidden
    else if modalType != "book" then Blank
    else if step == 1 then Offer
    else if step == 2 then Processing
    else if step == 3 then Confirmation
    else Blank
  }

  class PaymentModal {
    var showModal: bool
    var modalType: string
    var selectedOption: Option<TravelOption>
    var step: int
    /** Timer callbacks scheduled by `handlePayment` that have not fired yet. */
    var pendingTimers: nat

    /** The step is 1, 2 or 3, and the dialog is shown exactly when an
        option is selected and the type is "book"; closed, both are reset. */
    ghost predicate Valid()
      reads this
    {
      && 1 <= step <= 3
      && (showModal <==> selectedOption.Some?)
      && (showModal ==> modalType == "book")
      && (!showModal ==> modalType == "")
    }

    /** "Proceed to Payment" is on screen. */
    predicate ProceedAvailable()
      reads this
    {
      PanelFor(showModal, modalType, step) == Offer
    }

    /** "Booking Confirmed!" is on screen. */
    predicate ConfirmationShown()
      reads this
    {
      PanelFor(showModal, modalType, step) == Confirmation
    }

    constructor ()
      ensures Valid()
      ensures !showModal && modalType == "" && selectedOption.None? && step == 1 && pendingTimers == 0
    {
      showModal := false;
      modalType := "";
      selectedOption := None;
      step := 1;
      pendingTimers := 0;
    }

    /** `openModal`: select the option, type "book", step 1, show. */
    method OpenModal(option: TravelOption)
      requires Valid()
      modifies this
      ensures Valid()
      ensures selectedOption == Some(option) && modalType == "book" && step == 1 && showModal
      ensures ProceedAvailable()
      ensures pendingTimers == old(pendingTimers)
    {
      selectedOption := Some(option);
      modalType := "book";
      step := 1;
      showModal := true;
    }

    /** `closeModal`: hide, and reset type, selection and step. Pending
        timers are left running. */
    method CloseModal()
      requires Valid()
      modifies this
      ensures Valid()
      ensures !showModal && modalType == "" && selectedOption.None? && step == 1
      ensures pendingTimers == old(pendingTimers)
    {
      showModal := false;
      modalType := "";
      selectedOption := None;
      step := 1;
    }

    /** `handlePayment`: step 2 now, and one more timer that will set step 3. */
    method HandlePayment()
      requires Valid()
      modifies this
      ensures Valid()
      ensures step == 2 && pendingTimers == old(pendingTimers) + 1
      ensures showModal == old(showModal) && modalType == old(modalType)
      ensures selectedOption == old(selectedOption)
    {
      step := 2;
      pendingTimers := pendingTimers + 1;
    }

    /** The `setTimeout` callback runs: step 3, whatever the dialog shows now. */
    method TimerFires()
      requires Valid() && pendingTimers > 0
      modifies this
      ensures Valid()
      ensures step == 3 && pendingTimers == old(pendingTimers) - 1
      ensures showModal == old(showModal) && modalType == old(modalType)
      ensures selectedOption == old(selectedOption)
    {
      step := 3;
      pendingTimers := pendingTimers - 1;
    }
  }

  /** An open dialog always shows one of its three panels. */
  lemma OpenDialogNeverBlank(showModal: bool, modalType: string, step: int)
    requires showModal && modalType == "book" && 1 <= step <= 3
    ensures PanelFor(showModal, modalType, step) in {Offer, Processing, Confirmation}
  {
  }

  /** The intended path: open, pay, timer fires; the confirmation names the
      option that was paid for. */
  method PayThenConfirm(dialog: PaymentModal, option: TravelOption)
    requires dialog.Valid() && dialog.pendingTimers == 0
    modifies dialog
    ensures dialog.ConfirmationShown() && dialog.selectedOption == Some(option)
    ensures dialog.pendingTimers == 0
  {
    dialog.OpenModal(option);
    dialog.HandlePayment();
    dialog.TimerFires();
  }

  /** Closing during processing does not stop the timer: paying for `first`,
      closing, and opening `second` is followed by the old timer showing the
      confirmation for `second`, which was never paid for. */
  method StaleTimerConfirmsNextOption(dialog: PaymentModal, first: TravelOption, second: TravelOption)
    requires dialog.Valid() && dialog.pendingTimers == 0
    modifies dialog
    ensures dialog.ConfirmationShown() && dialog.selectedOption == Some(second)
  {
    dialog.OpenModal(first);
    dialog.HandlePayment();
    dialog.CloseModal();
    dialog.OpenModal(second);
    assert dialog.ProceedAvailable();
    dialog.TimerFires();
  }
}
