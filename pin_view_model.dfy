/** PinViewModel: the PIN pad's buffer of at most six digits, the two-phase setup/confirm
    protocol, verification against SecurityManager, and the lockout flag driven by the
    lockout timer. The timer's ticks are not modelled; its start guard and its finish are. */
module PinEntry {
  import opened Security
  import opened Crypto
  import opened Wrappers

  const PIN_LENGTH: nat := 6

  datatype PinMode = Setup | Authenticate | Verify {
    function Title(): string {
      match this
      case Setup => "Set Your PIN"
      case Authenticate => "Welcome Back"
      case Verify => "Security Check"
    }
    function Subtitle(): string {
      match this
      case Setup => "Create a 6-digit PIN for security."
      case Authenticate => "Enter your PIN to unlock."
      case Verify => "Enter your PIN to continue."
    }
  }

  datatype PinScreenUiState = PinScreenUiState(
    title: string,
    subtitle: string,
    enteredPin: string,
    showError: bool,
    isSuccess: bool,
    isLockedOut: bool,
    lockoutMessage: string
  )

  const INITIAL_UI_STATE: PinScreenUiState := PinScreenUiState("", "", "", false, false, false, "")

  const CONFIRM_TITLE: string := "Confirm Your PIN"
  const CONFIRM_SUBTITLE: string := "Re-enter the PIN to confirm."
  const MISMATCH_TITLE: string := "PINs Don't Match"
  const MISMATCH_SUBTITLE: string := "Please try setting your PIN again."

  class PinViewModel {
    const securityManager: SecurityManager
    var uiState: PinScreenUiState
    var currentMode: PinMode
    var tempPin: string
    /** Whether a lockout timer is running (started and neither finished nor cancelled). */
    var timerRunning: bool

    ghost predicate Valid()
      reads this, securityManager
    {
      |uiState.enteredPin| <= PIN_LENGTH && securityManager.Valid()
    }

    constructor (securityManager: SecurityManager)
      requires securityManager.Valid()
      ensures Valid() && this.securityManager == securityManager
      ensures uiState == INITIAL_UI_STATE && currentMode == Authenticate && tempPin == "" && !timerRunning
    {
      this.securityManager := securityManager;
      uiState := INITIAL_UI_STATE;
      currentMode := Authenticate;
      tempPin := "";
      timerRunning := false;
    }

    /** The state after processing the full PIN of `before`, given the state before it:
        the setup protocol in Setup mode, verification in the other two modes. */
    ghost predicate ProcessedFrom(before: PinScreenUiState, tempBefore: string, prefsBefore: Prefs,
                                  timerBefore: bool, now: nat)
      requires WellTyped(prefsBefore)
      reads this, securityManager
    {
      var pin := before.enteredPin;
      match currentMode
      case Setup =>
        && timerRunning == timerBefore
        && (if tempBefore == "" then
              // first entry: remembered, cleared, nothing persisted
              && tempPin == pin && securityManager.prefs == prefsBefore
              && uiState == before.(title := CONFIRM_TITLE, subtitle := CONFIRM_SUBTITLE, enteredPin := "")
            else if tempBefore == pin then
              // confirmation matches: the PIN is saved once
              && tempPin == tempBefore
              && securityManager.prefs == WithPin(prefsBefore, HashPin(securityManager.crypto, pin))
              && uiState == before.(isSuccess := true)
            else
              // mismatch: start over, nothing saved
              && tempPin == "" && securityManager.prefs == prefsBefore
              && uiState == before.(title := MISMATCH_TITLE, subtitle := MISMATCH_SUBTITLE,
                                    enteredPin := "", showError := true))
      case _ =>
        var v := VerifyStep(prefsBefore, HashPin(securityManager.crypto, pin), now);
        && tempPin == tempBefore
        && securityManager.prefs == v.prefs
        && (if v.accepted then
              uiState == before.(isSuccess := true) && timerRunning == timerBefore
            else if LockedOut(v.prefs, now) then
              uiState == before.(isLockedOut := true, enteredPin := "") && timerRunning
            else
              uiState == before.(enteredPin := "", showError := true) && timerRunning == timerBefore)
    }

    /** initialize(mode): title and subtitle from the mode; the buffer, the error and the
        success flag cleared; tempPin kept. Then checkForExistingLockout. */
    method Initialize(mode: PinMode, now: nat)
      requires Valid()
      modifies this
      ensures Valid() && currentMode == mode && tempPin == old(tempPin)
      ensures var reset := old(uiState).(title := mode.Title(), subtitle := mode.Subtitle(),
                                         enteredPin := "", showError := false, isSuccess := false);
              if securityManager.IsLockedOut(now) then uiState == reset.(isLockedOut := true) && timerRunning
              else uiState == reset && timerRunning == old(timerRunning)
    {
      currentMode := mode;
      uiState := uiState.(title := mode.Title(), subtitle := mode.Subtitle(),
                          enteredPin := "", showError := false, isSuccess := false);
      CheckForExistingLockout(now);
    }

    method CheckForExistingLockout(now: nat)
      requires Valid()
      modifies this
      ensures Valid() && currentMode == old(currentMode) && tempPin == old(tempPin)
      ensures if securityManager.IsLockedOut(now) then
                uiState == old(uiState).(isLockedOut := true, enteredPin := "") && timerRunning
              else uiState == old(uiState) && timerRunning == old(timerRunning)
    {
      if securityManager.IsLockedOut(now) {
        StartLockoutTimer(securityManager.GetLockoutTimestamp(), now);
      }
    }

    /** onPinDigit: ignored while locked out or with a full buffer; otherwise appends the
        digit, and processes the PIN exactly when the buffer becomes full. The keypad sends
        one character per press. */
    method OnPinDigit(digit: string, now: nat)
      requires Valid() && |digit| == 1
      modifies this, securityManager
      ensures Valid() && currentMode == old(currentMode)
      ensures old(uiState.isLockedOut) || |old(uiState.enteredPin)| >= PIN_LENGTH ==>
                && uiState == old(uiState) && tempPin == old(tempPin) && timerRunning == old(timerRunning)
                && securityManager.prefs == old(securityManager.prefs)
      ensures !old(uiState.isLockedOut) && |old(uiState.enteredPin)| + 1 < PIN_LENGTH ==>
                && uiState == old(uiState).(enteredPin := old(uiState.enteredPin) + digit)
                && tempPin == old(tempPin) && timerRunning == old(timerRunning)
                && securityManager.prefs == old(securityManager.prefs)
      ensures !old(uiState.isLockedOut) && |old(uiState.enteredPin)| + 1 == PIN_LENGTH ==>
                ProcessedFrom(old(uiState).(enteredPin := old(uiState.enteredPin) + digit),
                              old(tempPin), old(securityManager.prefs), old(timerRunning), now)
    {
      if uiState.isLockedOut || |uiState.enteredPin| >= PIN_LENGTH {
        return;
      }
      uiState := uiState.(enteredPin := uiState.enteredPin + digit);
      if |uiState.enteredPin| == PIN_LENGTH {
        ProcessPin(now);
      }
    }

    /** processPin: dispatch on the mode. */
    method ProcessPin(now: nat)
      requires Valid()
      modifies this, securityManager
      ensures Valid() && currentMode == old(currentMode)
      ensures ProcessedFrom(old(uiState), old(tempPin), old(securityManager.prefs), old(timerRunning), now)
    {
      match currentMode
      case Setup => HandlePinSetup();
      case _ => HandlePinVerification(now);
    }

    method HandlePinSetup()
      requires Valid() && currentMode == Setup
      modifies this, securityManager
      ensures Valid() && currentMode == old(currentMode)
      ensures ProcessedFrom(old(uiState), old(tempPin), old(securityManager.prefs), old(timerRunning), 0)
    {
      var enteredPin := uiState.enteredPin;
      if tempPin == "" {
        tempPin := enteredPin;
        uiState := uiState.(title := CONFIRM_TITLE, subtitle := CONFIRM_SUBTITLE, enteredPin := "");
      } else if tempPin == enteredPin {
        securityManager.SavePin(enteredPin);
        uiState := uiState.(isSuccess := true);
      } else {
        tempPin := "";
        uiState := uiState.(title := MISMATCH_TITLE, subtitle := MISMATCH_SUBTITLE,
                            enteredPin := "", showError := true);
      }
    }

    method HandlePinVerification(now: nat)
      requires Valid() && currentMode != Setup
      modifies this, securityManager
      ensures Valid() && currentMode == old(currentMode)
      ensures ProcessedFrom(old(uiState), old(tempPin), old(securityManager.prefs), old(timerRunning), now)
    {
      var ok := securityManager.VerifyPin(uiState.enteredPin, now);
      if ok {
        uiState := uiState.(isSuccess := true);
      } else if securityManager.IsLockedOut(now) {
        StartLockoutTimer(securityManager.GetLockoutTimestamp(), now);
      } else {
        uiState := uiState.(enteredPin := "", showError := true);
      }
    }

    /** onBackspace: drops exactly the last character; nothing on an empty buffer. */
    method OnBackspace()
      requires Valid()
      modifies this
      ensures Valid() && currentMode == old(currentMode) && tempPin == old(tempPin)
      ensures timerRunning == old(timerRunning)
      ensures old(uiState.enteredPin) == "" ==> uiState == old(uiState)
      ensures old(uiState.enteredPin) != "" ==>
                && uiState == old(uiState).(enteredPin := old(uiState.enteredPin)[..|old(uiState.enteredPin)| - 1])
                && uiState.enteredPin + [old(uiState.enteredPin)[|old(uiState.enteredPin)| - 1]] == old(uiState.enteredPin)
    {
      if uiState.enteredPin != "" {
        uiState := uiState.(enteredPin := uiState.enteredPin[..|uiState.enteredPin| - 1]);
      }
    }

    /** clearError: only the error flag changes. */
    method ClearError()
      requires Valid()
      modifies this
      ensures Valid() && currentMode == old(currentMode) && tempPin == old(tempPin)
      ensures timerRunning == old(timerRunning) && uiState == old(uiState).(showError := false)
    {
      uiState := uiState.(showError := false);
    }

    /** startLockoutTimer(end): any running timer is cancelled; only when time remains is the
        screen locked, the buffer cleared and a new timer started. */
    method StartLockoutTimer(lockoutEndTime: int, now: nat)
      requires Valid()
      modifies this
      ensures Valid() && currentMode == old(currentMode) && tempPin == old(tempPin)
      ensures timerRunning == (lockoutEndTime - now > 0)
      ensures lockoutEndTime - now > 0 ==> uiState == old(uiState).(isLockedOut := true, enteredPin := "")
      ensures lockoutEndTime - now <= 0 ==> uiState == old(uiState)
    {
      timerRunning := false;
      var remainingTime := lockoutEndTime - now;
      if remainingTime > 0 {
        uiState := uiState.(isLockedOut := true, enteredPin := "");
        timerRunning := true;
      }
    }

    /** The timer's onFinish: unlocks the screen, clears the message and restores the
        mode's subtitle. It fires only for a running timer. */
    method OnLockoutTimerFinish()
      requires Valid() && timerRunning
      modifies this
      ensures Valid() && currentMode == old(currentMode) && tempPin == old(tempPin) && !timerRunning
      ensures uiState == old(uiState).(isLockedOut := false, lockoutMessage := "", subtitle := currentMode.Subtitle())
    {
      uiState := uiState.(isLockedOut := false, lockoutMessage := "", subtitle := currentMode.Subtitle());
      timerRunning := false;
    }

    /** onCleared: the running timer, if any, is cancelled. */
    method OnCleared()
      requires Valid()
      modifies this
      ensures Valid() && uiState == old(uiState) && currentMode == old(currentMode)
      ensures tempPin == old(tempPin) && !timerRunning
    {
      timerRunning := false;
    }
  }

  /** A user setting a PIN on a fresh setup screen, key by key: typing the same six digits
      twice saves exactly that PIN, unless the store is locked out, when the pad ignores them. */
  method EnterPinTwice(sm: SecurityManager, pin: string, now: nat)
    requires sm.Valid() && |pin| == PIN_LENGTH
    modifies sm
    ensures sm.Valid()
    ensures sm.prefs == if LockedOut(old(sm.prefs), now) then old(sm.prefs)
                        else WithPin(old(sm.prefs), HashPin(sm.crypto, pin))
  {
    var vm := new PinViewModel(sm);
    vm.Initialize(Setup, now);
    if !vm.uiState.isLockedOut {
      var i := 0;
      while i < PIN_LENGTH
        invariant 0 <= i <= PIN_LENGTH
        invariant vm.Valid() && vm.securityManager == sm && vm.currentMode == Setup
        invariant !vm.uiState.isLockedOut && vm.tempPin == (if i == PIN_LENGTH then pin else "")
        invariant vm.uiState.enteredPin == (if i == PIN_LENGTH then "" else pin[..i])
        invariant sm.prefs == old(sm.prefs)
      {
        assert pin[..i] + [pin[i]] == pin[..i + 1];
        vm.OnPinDigit([pin[i]], now);
        i := i + 1;
      }
      assert vm.tempPin == pin;
      i := 0;
      while i < PIN_LENGTH
        invariant 0 <= i <= PIN_LENGTH
        invariant vm.Valid() && vm.securityManager == sm && vm.currentMode == Setup && vm.tempPin == pin
        invariant !vm.uiState.isLockedOut
        invariant vm.uiState.enteredPin == pin[..i]
        invariant i < PIN_LENGTH ==> sm.prefs == old(sm.prefs)
        invariant i == PIN_LENGTH ==> vm.uiState.isSuccess && sm.prefs == WithPin(old(sm.prefs), HashPin(sm.crypto, pin))
      {
        assert pin[..i] + [pin[i]] == pin[..i + 1];
        vm.OnPinDigit([pin[i]], now);
        i := i + 1;
      }
      assert sm.IsPinSet() && StoredPinHash(sm.prefs) == Some(HashPin(sm.crypto, pin));
    }
  }
}
