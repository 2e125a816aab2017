/** The measurement-entry dialog `ModalInputsNeu`: its ten pieces of state,
    the reset when it opens, the change handlers of the tread, pressure,
    torque and date inputs, and the submit gate with its six ordered
    checks. The gate is specified by the pure function SubmitVerdict; the
    Submit method performs the checks step by step and is proved to agree
    with it. */
module MeasurementForm {
  import opened Wrappers
  import opened JsText
  import opened DateFormat
  import opened TreadInput

  const MinPressure: real := 25.0
  const MaxPressure: real := 50.0
  const MinTorque: real := 110.0
  const MaxTorque: real := 150.0

  /** What onSubmit receives: Odometro, Remanente, PresionAire,
      TorqueAplicado and FechaAsignacion. */
  datatype Record = Record(
    odometro: real,
    remanente: Tread,
    presionAire: real,
    torqueAplicado: real,
    fechaAsignacion: string)

  /** kmError, presionError, torqueError, fechaError, fechaFormatoError. */
  datatype ErrorFlags = ErrorFlags(km: bool, presion: bool, torque: bool, fecha: bool, fechaFormato: bool)

  /** Which check of the submit gate stopped it, or Accepted when none did.
      The checks are listed in the order the gate runs them. */
  datatype Verdict =
    | KmBelowInitial
    | PressureOutOfRange
    | TorqueOutOfRange
    | DateMalformed
    | DateBeforeRegistration
    | DateAfterToday
    | Accepted

  predicate PressureOutOfBounds(p: real) {
    p < MinPressure || p > MaxPressure
  }

  predicate TorqueOutOfBounds(t: real) {
    t < MinTorque || t > MaxTorque
  }

  /** The live range flag of the date input: after today, or before a
      non-empty registration date (an empty date is checked too). */
  predicate DateOutOfLiveRange(s: string, today: string, reg: string) {
    LexLess(today, s) || (reg != [] && LexLess(s, reg))
  }

  /** handleSubmit's sequence of guards, first failure wins. The format
      guard is stated by the shape the validator accepts (DateShaped, equal
      to ValidDateFormat by that function's contract). */
  function SubmitVerdict(r: Record, initialOdometro: real, reg: string, today: string): (v: Verdict)
    ensures v == Accepted || Fails(v, r, initialOdometro, reg, today)
  {
    if r.odometro < initialOdometro then KmBelowInitial
    else if PressureOutOfBounds(r.presionAire) then PressureOutOfRange
    else if TorqueOutOfBounds(r.torqueAplicado) then TorqueOutOfRange
    else if r.fechaAsignacion != [] && !DateShaped(r.fechaAsignacion) then DateMalformed
    else if r.fechaAsignacion != [] && reg != [] && LexLess(r.fechaAsignacion, reg) then DateBeforeRegistration
    else if LexLess(today, r.fechaAsignacion) then DateAfterToday
    else Accepted
  }

  /** Position of a check in the gate; Accepted comes after all of them. */
  function Rank(v: Verdict): (n: nat) {
    match v
    case KmBelowInitial => 1
    case PressureOutOfRange => 2
    case TorqueOutOfRange => 3
    case DateMalformed => 4
    case DateBeforeRegistration => 5
    case DateAfterToday => 6
    case Accepted => 7
  }

  /** The condition of one check taken on its own, regardless of the others. */
  predicate Fails(c: Verdict, r: Record, initialOdometro: real, reg: string, today: string) {
    match c
    case KmBelowInitial => r.odometro < initialOdometro
    case PressureOutOfRange => PressureOutOfBounds(r.presionAire)
    case TorqueOutOfRange => TorqueOutOfBounds(r.torqueAplicado)
    case DateMalformed => r.fechaAsignacion != [] && !DateShaped(r.fechaAsignacion)
    case DateBeforeRegistration => r.fechaAsignacion != [] && reg != [] && LexLess(r.fechaAsignacion, reg)
    case DateAfterToday => LexLess(today, r.fechaAsignacion)
    case Accepted => false
  }

  /** The gate stops at check c exactly when c fails and every check before
      it passes; it accepts exactly when no check fails. */
  lemma SubmitStopsAtFirstFailure(r: Record, initialOdometro: real, reg: string, today: string, c: Verdict)
    ensures SubmitVerdict(r, initialOdometro, reg, today) == c <==>
      (c == Accepted || Fails(c, r, initialOdometro, reg, today)) &&
      forall d :: Rank(d) < Rank(c) ==> !Fails(d, r, initialOdometro, reg, today)
  {
    var v := SubmitVerdict(r, initialOdometro, reg, today);
    assert v == Accepted || Fails(v, r, initialOdometro, reg, today);
    forall d | Rank(d) < Rank(v)
      ensures !Fails(d, r, initialOdometro, reg, today)
    {
    }
    assert Rank(c) <= Rank(Accepted) && (Rank(c) == Rank(v) ==> c == v);
  }

  /** Everything an accepted record satisfies: the odometer did not go
      back, pressure and torque are in range, and a date, when given, is
      well formed, not before the registration date and not after today,
      as strings and, for well-formed bounds, on the calendar. */
  lemma AcceptedRecordIsValid(r: Record, initialOdometro: real, reg: string, today: string)
    requires SubmitVerdict(r, initialOdometro, reg, today) == Accepted
    ensures r.odometro >= initialOdometro
    ensures MinPressure <= r.presionAire <= MaxPressure
    ensures MinTorque <= r.torqueAplicado <= MaxTorque
    ensures r.fechaAsignacion != [] ==> DateShaped(r.fechaAsignacion)
    ensures r.fechaAsignacion != [] && reg != [] ==> !LexLess(r.fechaAsignacion, reg)
    ensures !LexLess(today, r.fechaAsignacion)
    ensures r.fechaAsignacion != [] && DateShaped(reg) ==>
      DateKey(reg) <= DateKey(r.fechaAsignacion)
    ensures r.fechaAsignacion != [] && DateShaped(today) ==>
      DateKey(r.fechaAsignacion) <= DateKey(today)
  {
    var f := r.fechaAsignacion;
    if f != [] && DateShaped(reg) {
      DateOrderIsCalendarOrder(f, reg);
    }
    if f != [] && DateShaped(today) {
      DateOrderIsCalendarOrder(today, f);
    }
  }

  /** An empty date never stops the gate: it skips the format and lower
      bound checks, and "" is after nothing. */
  lemma EmptyDateNeverBlocks(r: Record, initialOdometro: real, reg: string, today: string)
    requires r.fechaAsignacion == []
    ensures SubmitVerdict(r, initialOdometro, reg, today) == Accepted <==>
      r.odometro >= initialOdometro && !PressureOutOfBounds(r.presionAire) &&
      !TorqueOutOfBounds(r.torqueAplicado)
  {
    EmptyIsLeast(today);
  }

  /** A well-formed date strictly after a well-formed today is refused, and
      so is one strictly before a well-formed registration date, whatever
      the clock's string form; the calendar order decides. */
  lemma OutOfCalendarRangeIsRefused(r: Record, initialOdometro: real, reg: string, today: string)
    requires SubmitVerdict(r, initialOdometro, reg, today) !in {KmBelowInitial, PressureOutOfRange, TorqueOutOfRange}
    requires DateShaped(r.fechaAsignacion) && DateShaped(reg) && DateShaped(today)
    requires DateKey(r.fechaAsignacion) < DateKey(reg) || DateKey(today) < DateKey(r.fechaAsignacion)
    ensures SubmitVerdict(r, initialOdometro, reg, today) in {DateBeforeRegistration, DateAfterToday}
  {
    DateOrderIsCalendarOrder(r.fechaAsignacion, reg);
    DateOrderIsCalendarOrder(today, r.fechaAsignacion);
  }

  /** The state of one mounted dialog. */
  class ModalInputsNeu {
    var odometro: real
    var remanente: Tread
    var presionAire: real
    var torqueAplicado: real
    var fechaAsignacion: string
    var kmError: bool
    var presionError: bool
    var torqueError: bool
    var fechaError: bool
    var fechaFormatoError: bool

    function Current(): (r: Record)
      reads this
    {
      Record(odometro, remanente, presionAire, torqueAplicado, fechaAsignacion)
    }

    function Flags(): (f: ErrorFlags)
      reads this
    {
      ErrorFlags(kmError, presionError, torqueError, fechaError, fechaFormatoError)
    }

    /** Mounting: every useState starts from its initial prop, the date from
        "" and every flag from false. */
    constructor (initialRemanente: real, initialOdometro: real, initialPresionAire: real, initialTorqueAplicado: real)
      ensures Current() == Record(initialOdometro, Amount(initialRemanente), initialPresionAire, initialTorqueAplicado, [])
      ensures Flags() == ErrorFlags(false, false, false, false, false)
    {
      odometro := initialOdometro;
      remanente := Amount(initialRemanente);
      presionAire := initialPresionAire;
      torqueAplicado := initialTorqueAplicado;
      fechaAsignacion := [];
      kmError := false;
      presionError := false;
      torqueError := false;
      fechaError := false;
      fechaFormatoError := false;
    }

    /** The reset effect while the dialog is open: the four numbers take
        their initial props, the date becomes "", four flags clear and
        fechaFormatoError keeps whatever it was. */
    method Open(initialRemanente: real, initialOdometro: real, initialPresionAire: real, initialTorqueAplicado: real)
      modifies this
      ensures Current() == Record(initialOdometro, Amount(initialRemanente), initialPresionAire, initialTorqueAplicado, [])
      ensures Flags() == ErrorFlags(false, false, false, false, old(fechaFormatoError))
    {
      odometro := initialOdometro;
      remanente := Amount(initialRemanente);
      presionAire := initialPresionAire;
      torqueAplicado := initialTorqueAplicado;
      kmError := false;
      presionError := false;
      torqueError := false;
      fechaAsignacion := [];
      fechaError := false;
    }

    /** The tread input: commas become dots; a text the filter refuses
        leaves Remanente as it was, an accepted one is read as a number. */
    method ChangeRemanente(text: string)
      modifies this`remanente
      ensures AcceptsTread(ReplaceCommas(text)) ==> remanente == ParseTread(ReplaceCommas(text))
      ensures !AcceptsTread(ReplaceCommas(text)) ==> remanente == old(remanente)
    {
      var value := ReplaceCommas(text);
      if !AcceptsTread(value) {
        return;
      }
      remanente := ParseTread(value);
    }

    /** The pressure input: the value is always stored and the flag says
        whether it lies outside [25, 50]. */
    method ChangePresion(value: real)
      modifies this`presionAire, this`presionError
      ensures presionAire == value
      ensures presionError <==> !(MinPressure <= value <= MaxPressure)
    {
      presionAire := value;
      if value < MinPressure || value > MaxPressure {
        presionError := true;
      } else {
        presionError := false;
      }
    }

    /** The torque input: the value is always stored and the flag says
        whether it lies outside [110, 150]. */
    method ChangeTorque(value: real)
      modifies this`torqueAplicado, this`torqueError
      ensures torqueAplicado == value
      ensures torqueError <==> !(MinTorque <= value <= MaxTorque)
    {
      torqueAplicado := value;
      if value < MinTorque || value > MaxTorque {
        torqueError := true;
      } else {
        torqueError := false;
      }
    }

    /** The date input: the text is always stored; the format flag is set
        for a non-empty malformed text; the range flag for a text after
        today or before a non-empty registration date. */
    method ChangeFecha(value: string, today: string, reg: string)
      modifies this`fechaAsignacion, this`fechaFormatoError, this`fechaError
      ensures fechaAsignacion == value
      ensures fechaFormatoError <==> value != [] && !DateShaped(value)
      ensures fechaError <==> DateOutOfLiveRange(value, today, reg)
    {
      fechaAsignacion := value;
      if value != [] && !ValidDateFormat(value) {
        fechaFormatoError := true;
      } else {
        fechaFormatoError := false;
      }
      if LexLess(today, value) {
        fechaError := true;
      } else if reg != [] && LexLess(value, reg) {
        fechaError := true;
      } else {
        fechaError := false;
      }
    }

    /** handleSubmit. Only the five flags may change (the field values stay
        as they are). The check that stops the gate sets its own flag and
        nothing is sent; any other flag keeps its value, except that the
        format flag is cleared once the format check has passed and the
        range flag once every check has passed. Then the current values are
        sent to onSubmit and onClose is called. */
    method Submit(today: string, reg: string, initialOdometro: real)
      returns (sent: Option<Record>, closed: bool, ghost verdict: Verdict)
      modifies this`kmError, this`presionError, this`torqueError, this`fechaError, this`fechaFormatoError
      ensures verdict == SubmitVerdict(Record(odometro, remanente, presionAire, torqueAplicado, fechaAsignacion), initialOdometro, reg, today)
      ensures sent == (if verdict == Accepted then Some(Current()) else None)
      ensures closed <==> verdict == Accepted
      ensures kmError == (verdict == KmBelowInitial || old(kmError))
      ensures presionError == (verdict == PressureOutOfRange || old(presionError))
      ensures torqueError == (verdict == TorqueOutOfRange || old(torqueError))
      ensures fechaFormatoError == (verdict == DateMalformed ||
        (verdict in {KmBelowInitial, PressureOutOfRange, TorqueOutOfRange} && old(fechaFormatoError)))
      ensures fechaError == (verdict in {DateBeforeRegistration, DateAfterToday} ||
        (verdict in {KmBelowInitial, PressureOutOfRange, TorqueOutOfRange, DateMalformed} && old(fechaError)))
    {
      sent, closed := None, false;
      if odometro < initialOdometro {
        verdict := KmBelowInitial;
        kmError := true;
        return;
      }
      if presionAire < MinPressure || presionAire > MaxPressure {
        verdict := PressureOutOfRange;
        presionError := true;
        return;
      }
      if torqueAplicado < MinTorque || torqueAplicado > MaxTorque {
        verdict := TorqueOutOfRange;
        torqueError := true;
        return;
      }
      if fechaAsignacion != [] && !ValidDateFormat(fechaAsignacion) {
        verdict := DateMalformed;
        fechaFormatoError := true;
        return;
      }
      fechaFormatoError := false;
      if fechaAsignacion != [] && reg != [] && LexLess(fechaAsignacion, reg) {
        verdict := DateBeforeRegistration;
        fechaError := true;
        return;
      }
      if LexLess(today, fechaAsignacion) {
        verdict := DateAfterToday;
        fechaError := true;
        return;
      }
      verdict := Accepted;
      fechaError := false;
      sent := Some(Record(odometro, remanente, presionAire, torqueAplicado, fechaAsignacion));
      closed := true;
    }
  }

  /** A session as a parent view drives it: opened with an odometer of 1000
      and no other values, the first save is refused on the pressure (0 is
      out of range although the reset left its flag clear); after entering
      pressure 30 and torque 120 and leaving the date empty the save sends
      exactly those values and closes. */
  method ExampleSession() returns (first: Option<Record>, firstFlagged: bool, second: Option<Record>, closed: bool)
    ensures first == None && firstFlagged
    ensures second == Some(Record(1000.0, Amount(0.0), 30.0, 120.0, [])) && closed
  {
    var form := new ModalInputsNeu(0.0, 0.0, 0.0, 0.0);
    form.Open(0.0, 1000.0, 0.0, 0.0);
    assert !form.presionError;
    var c0;
    ghost var v0;
    first, c0, v0 := form.Submit("2026-10-14", "2024-01-01", 1000.0);
    firstFlagged := form.presionError;
    form.ChangePresion(30.0);
    form.ChangeTorque(120.0);
    ghost var v1;
    second, closed, v1 := form.Submit("2026-10-14", "2024-01-01", 1000.0);
  }

  /** A malformed date flagged in one session is still flagged after the
      dialog is reopened, although the date itself was reset to "". */
  method StaleFormatFlag() returns (flagAfterReopen: bool, dateAfterReopen: string)
    ensures flagAfterReopen && dateAfterReopen == []
  {
    var form := new ModalInputsNeu(0.0, 0.0, 0.0, 0.0);
    form.Open(0.0, 0.0, 0.0, 0.0);
    form.ChangeFecha("2024-1-05", "2026-10-14", "");
    form.Open(0.0, 0.0, 0.0, 0.0);
    flagAfterReopen, dateAfterReopen := form.fechaFormatoError, form.fechaAsignacion;
  }

  /** Nothing but the reset writes Odometro, so whatever the user then does
      with the four inputs, a save against the same initial odometer never
      fails the odometer check and never raises its flag. */
  method KmNeverBlocksAfterReset(
    initialOdometro: real, text: string, pressure: real, torque: real,
    date: string, today: string, reg: string)
    returns (kmFlagged: bool, odometerSent: Option<real>)
    ensures !kmFlagged
    ensures odometerSent == None || odometerSent == Some(initialOdometro)
  {
    var form := new ModalInputsNeu(0.0, 0.0, 0.0, 0.0);
    form.Open(0.0, initialOdometro, 0.0, 0.0);
    form.ChangeRemanente(text);
    form.ChangePresion(pressure);
    form.ChangeTorque(torque);
    form.ChangeFecha(date, today, reg);
    var sent, closed;
    ghost var verdict;
    sent, closed, verdict := form.Submit(today, reg, initialOdometro);
    kmFlagged := form.kmError;
    odometerSent := if sent.Some? then Some(sent.value.odometro) else None;
  }
}
