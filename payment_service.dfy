/*
 * Payments for tuition, the dormitory and paid events.  A payment moves
 * between statuses through creation, initiation with the payment provider,
 * the provider's webhook and cancellation by the user; every move appends a
 * row to the payment history.  The balance sums what the user still owes.
 */
module PaymentService {
  import opened Common
  import EventService

  type PaymentId = int

  datatype PaymentType = TuitionFee | DormitoryFee | EventFee

  /** The stored value of a payment type. */
  function TypeValue(t: PaymentType): (r: string)
    ensures r in {"tuition", "dormitory", "event"}
  {
    match t
    case TuitionFee => "tuition"
    case DormitoryFee => "dormitory"
    case EventFee => "event"
  }

  lemma TypeValueInjective(a: PaymentType, b: PaymentType)
    ensures TypeValue(a) == TypeValue(b) <==> a == b
  {
  }

  datatype PaymentStatus = Pending | Processing | Success | Failed | Cancelled | Refunded

  /** A row of the payments table; amounts are in kopecks, instants on one clock. */
  datatype Payment = Payment(
    id: PaymentId,
    userId: UserId,
    paymentType: PaymentType,
    amount: int,
    status: PaymentStatus,
    eventId: Option<EventService.EventId>,
    period: Option<string>,
    description: Option<string>,
    yookassaId: Option<string>,
    confirmationUrl: Option<string>,
    paidAt: Option<int>)

  /** A row of the payment_history table. */
  datatype HistoryRow = HistoryRow(
    paymentId: PaymentId,
    oldStatus: Option<PaymentStatus>,
    newStatus: PaymentStatus,
    comment: Option<string>)

  /** The payments table and the history table, each in row order. */
  datatype PaymentsDb = PaymentsDb(payments: seq<Payment>, history: seq<HistoryRow>)

  /** The body of a create request. */
  datatype PaymentCreate = PaymentCreate(
    paymentType: PaymentType,
    amount: int,
    eventId: Option<EventService.EventId>,
    period: Option<string>,
    description: Option<string>)

  const ErrEventIdRequired := "Для оплаты мероприятия необходимо указать event_id"
  const ErrEventNotPaid := "Мероприятие не является платным"
  const ErrPaymentNotFound := "Платеж не найден"
  const ErrAlreadyProcessed := "Платеж уже обработан"
  const ErrCannotCancel := "Невозможно отменить платеж в текущем статусе"

  const CommentCreated := "Платеж создан"
  const CommentInitiated := "Платеж инициирован в ЮКассе"
  const CommentSucceeded := "Платеж успешно завершен"
  const CommentCanceled := "Платеж отменен"
  const CommentWaiting := "Платеж ожидает подтверждения"
  const CommentCancelledByUser := "Платеж отменен пользователем"

  const CheckoutUrlPrefix := "https://yookassa.ru/checkout/payments/"

  function ErrWrongAmount(price: int): string {
    "Сумма должна быть " + IntToString(price) + " копеек"
  }

  function ErrEventIdForbidden(t: PaymentType): string {
    "Для типа платежа " + TypeValue(t) + " поле event_id не должно быть указано"
  }

  function ErrPeriodRequired(t: PaymentType): string {
    "Для типа платежа " + TypeValue(t) + " необходимо указать период оплаты"
  }

  function ErrDescriptionRequired(t: PaymentType): string {
    "Для типа платежа " + TypeValue(t) + " необходимо указать описание"
  }

  // ---------------------------------------------------------------- lookups

  function FindPayment(payments: seq<Payment>, pid: PaymentId): (r: Option<nat>)
    ensures r.Some? ==> r.value < |payments| && payments[r.value].id == pid
    ensures r.Some? ==> forall i :: 0 <= i < r.value ==> payments[i].id != pid
    ensures r.None? <==> forall i :: 0 <= i < |payments| ==> payments[i].id != pid
  {
    FindIndex(payments, (p: Payment) => p.id == pid)
  }

  function FindByYookassa(payments: seq<Payment>, yid: string): (r: Option<nat>)
    ensures r.Some? ==> r.value < |payments| && payments[r.value].yookassaId == Some(yid)
    ensures r.Some? ==> forall i :: 0 <= i < r.value ==> payments[i].yookassaId != Some(yid)
    ensures r.None? <==> forall i :: 0 <= i < |payments| ==> payments[i].yookassaId != Some(yid)
  {
    FindIndex(payments, (p: Payment) => p.yookassaId == Some(yid))
  }

  // --------------------------------------------------------------- creation

  /** The validation of create_payment: the first rule the request breaks, if any. */
  function CreateError(events: seq<EventService.Event>, data: PaymentCreate): Option<string> {
    if data.paymentType == EventFee then
      if data.eventId.None? then Some(ErrEventIdRequired)
      else
        match EventService.FindEvent(events, data.eventId.value)
        case None => Some(EventService.ErrEventNotFound)
        case Some(i) =>
          var ev := events[i];
          if ev.eventType != EventService.Paid then Some(ErrEventNotPaid)
          else if ev.price.Some? && ev.price.value != 0 && data.amount != ev.price.value then
            Some(ErrWrongAmount(ev.price.value))
          else None
    else if data.eventId.Some? then Some(ErrEventIdForbidden(data.paymentType))
    else if !Truthy(data.period) then Some(ErrPeriodRequired(data.paymentType))
    else if !Truthy(data.description) then Some(ErrDescriptionRequired(data.paymentType))
    else None
  }

  /** What an acceptable request looks like, rule by rule. */
  predicate Acceptable(events: seq<EventService.Event>, data: PaymentCreate) {
    if data.paymentType == EventFee then
      && data.eventId.Some?
      && (exists i :: 0 <= i < |events| && events[i].id == data.eventId.value)
      && var ev := events[EventService.FindEvent(events, data.eventId.value).value];
         && ev.eventType == EventService.Paid
         && (ev.price.None? || ev.price.value == 0 || data.amount == ev.price.value)
    else
      data.eventId.None? && Truthy(data.period) && Truthy(data.description)
  }

  lemma CreateErrorIffUnacceptable(events: seq<EventService.Event>, data: PaymentCreate)
    ensures CreateError(events, data).None? <==> Acceptable(events, data)
  {
  }

  function NewPayment(pid: PaymentId, u: UserId, data: PaymentCreate): Payment {
    Payment(pid, u, data.paymentType, data.amount, Pending,
            if data.paymentType == EventFee then data.eventId else None,
            data.period, data.description, None, None, None)
  }

  /** create_payment: validate, append a PENDING payment and its first history row. */
  function CreateSpec(db: PaymentsDb, events: seq<EventService.Event>, data: PaymentCreate, u: UserId, pid: PaymentId): (r: Result<PaymentsDb>)
    ensures r.Err? <==> !Acceptable(events, data)
  {
    CreateErrorIffUnacceptable(events, data);
    match CreateError(events, data)
    case Some(m) => Err(m)
    case None =>
      Ok(PaymentsDb(db.payments + [NewPayment(pid, u, data)],
                    db.history + [HistoryRow(pid, None, Pending, Some(CommentCreated))]))
  }

  // ------------------------------------------------------------ transitions

  /** One status move of payment i to p', with the history row _add_payment_history appends. */
  function Record(db: PaymentsDb, i: nat, p': Payment, oldStatus: Option<PaymentStatus>, comment: string): PaymentsDb
    requires i < |db.payments|
  {
    PaymentsDb(db.payments[i := p'],
               db.history + [HistoryRow(db.payments[i].id, oldStatus, p'.status, Some(comment))])
  }

  /** initiate_yookassa_payment, with the generated uuid as an input. */
  function InitiateSpec(db: PaymentsDb, pid: PaymentId, token: string): (r: Result<PaymentsDb>)
    ensures r.Err? <==> FindPayment(db.payments, pid).None? || db.payments[FindPayment(db.payments, pid).value].status != Pending
  {
    match FindPayment(db.payments, pid)
    case None => Err(ErrPaymentNotFound)
    case Some(i) =>
      var p := db.payments[i];
      if p.status != Pending then Err(ErrAlreadyProcessed)
      else
        var yid := "yookassa_" + token;
        Ok(Record(db, i, p.(yookassaId := Some(yid), confirmationUrl := Some(CheckoutUrlPrefix + yid), status := Processing),
                  Some(Pending), CommentInitiated))
  }

  /** cancel_payment: refused once the payment succeeded, was cancelled or refunded. */
  function CancelSpec(db: PaymentsDb, pid: PaymentId): (r: Result<PaymentsDb>)
    ensures r.Err? <==> FindPayment(db.payments, pid).None? || db.payments[FindPayment(db.payments, pid).value].status in {Success, Cancelled, Refunded}
  {
    match FindPayment(db.payments, pid)
    case None => Err(ErrPaymentNotFound)
    case Some(i) =>
      var p := db.payments[i];
      if p.status in {Success, Cancelled, Refunded} then Err(ErrCannotCancel)
      else Ok(Record(db, i, p.(status := Cancelled), Some(p.status), CommentCancelledByUser))
  }

  /** What the webhook leaves behind: both tables and the payment it returns, if any. */
  datatype WebhookResult = WebhookResult(db: PaymentsDb, events: EventService.EventsDb, payment: Option<Payment>)

  /** The event registration a successful event payment triggers; its errors are swallowed. */
  function RegisterOnSuccess(evdb: EventService.EventsDb, p: Payment, now: int, regId: string): EventService.EventsDb {
    if p.eventId.Some? && p.paymentType == EventFee then
      match EventService.RegisterSpec(evdb, p.eventId.value, p.userId, now, regId)
      case Ok(evdb') => evdb'
      case Err(_) => evdb
    else evdb
  }

  /**
   * process_yookassa_webhook: `event` is the "event" field and `objectId`
   * the "id" of the "object" field, each absent when the body lacks it.
   */
  function WebhookSpec(db: PaymentsDb, evdb: EventService.EventsDb, event: Option<string>, objectId: Option<string>,
                       now: int, regId: string): WebhookResult
  {
    if !Truthy(objectId) then WebhookResult(db, evdb, None)
    else
      match FindByYookassa(db.payments, objectId.value)
      case None => WebhookResult(db, evdb, None)
      case Some(i) =>
        var p := db.payments[i];
        if event == Some("payment.succeeded") then
          var p' := p.(status := Success, paidAt := Some(now));
          WebhookResult(Record(db, i, p', Some(p.status), CommentSucceeded), RegisterOnSuccess(evdb, p, now, regId), Some(p'))
        else if event == Some("payment.canceled") then
          var p' := p.(status := Cancelled);
          WebhookResult(Record(db, i, p', Some(p.status), CommentCanceled), evdb, Some(p'))
        else if event == Some("payment.waiting_for_capture") then
          var p' := p.(status := Processing);
          WebhookResult(Record(db, i, p', Some(p.status), CommentWaiting), evdb, Some(p'))
        else WebhookResult(db, evdb, Some(p))
  }

  // -------------------------------------------------------------- invariant

  /** The history rows of one payment, in table order. */
  function Trace(history: seq<HistoryRow>, pid: PaymentId): (r: seq<HistoryRow>)
    ensures |r| <= |history|
    ensures forall j :: 0 <= j < |r| ==> r[j].paymentId == pid
  {
    if history == [] then []
    else
      var last := history[|history| - 1];
      Trace(history[..|history| - 1], pid) + (if last.paymentId == pid then [last] else [])
  }

  /** A trace starts at creation and every row leaves from the status the previous one reached. */
  predicate Chained(t: seq<HistoryRow>) {
    && |t| > 0
    && t[0].oldStatus == None
    && forall j :: 0 < j < |t| ==> t[j].oldStatus == Some(t[j - 1].newStatus)
  }

  /** The payment's history is a chain ending in its current status. */
  predicate Tracks(history: seq<HistoryRow>, p: Payment) {
    var t := Trace(history, p.id);
    Chained(t) && t[|t| - 1].newStatus == p.status
  }

  predicate PaymentIdsDistinct(payments: seq<Payment>) {
    forall i, j :: 0 <= i < j < |payments| ==> payments[i].id != payments[j].id
  }

  predicate AllTracked(db: PaymentsDb) {
    forall i :: 0 <= i < |db.payments| ==> Tracks(db.history, db.payments[i])
  }

  predicate NoOrphans(db: PaymentsDb) {
    forall j :: 0 <= j < |db.history| ==> FindPayment(db.payments, db.history[j].paymentId).Some?
  }

  /** The tables as the operations keep them: one row per id, each payment's history a chain up to its status, no history without a payment. */
  predicate Valid(db: PaymentsDb) {
    PaymentIdsDistinct(db.payments) && AllTracked(db) && NoOrphans(db)
  }

  lemma TraceAppend(history: seq<HistoryRow>, x: HistoryRow, pid: PaymentId)
    ensures Trace(history + [x], pid) == Trace(history, pid) + (if x.paymentId == pid then [x] else [])
  {
    assert (history + [x])[..|history|] == history;
  }

  lemma {:induction false} TraceAbsent(history: seq<HistoryRow>, pid: PaymentId)
    requires forall j :: 0 <= j < |history| ==> history[j].paymentId != pid
    ensures Trace(history, pid) == []
  {
    if history != [] {
      TraceAbsent(history[..|history| - 1], pid);
    }
  }

  /** Appending a row that leaves from the payment's current status keeps its history a chain, now ending in the row's status. */
  lemma ExtendTracks(history: seq<HistoryRow>, p: Payment, x: HistoryRow)
    requires Tracks(history, p)
    requires x.paymentId == p.id && x.oldStatus == Some(p.status)
    ensures Tracks(history + [x], p.(status := x.newStatus))
  {
    TraceAppend(history, x, p.id);
  }

  lemma OtherTracks(history: seq<HistoryRow>, p: Payment, x: HistoryRow)
    requires Tracks(history, p) && x.paymentId != p.id
    ensures Tracks(history + [x], p)
  {
    TraceAppend(history, x, p.id);
  }

  /** What a recorded move leaves: payment i replaced, the others kept, one history row appended. */
  lemma RecordShape(db: PaymentsDb, i: nat, p': Payment, oldStatus: Option<PaymentStatus>, comment: string)
    requires i < |db.payments|
    ensures var db' := Record(db, i, p', oldStatus, comment);
            && |db'.payments| == |db.payments|
            && db'.payments[i] == p'
            && (forall k :: 0 <= k < |db.payments| && k != i ==> db'.payments[k] == db.payments[k])
            && |db'.history| == |db.history| + 1
            && db'.history[..|db.history|] == db.history
            && db'.history[|db.history|] == HistoryRow(db.payments[i].id, oldStatus, p'.status, Some(comment))
  {
    var h := db.history + [HistoryRow(db.payments[i].id, oldStatus, p'.status, Some(comment))];
    assert h[..|db.history|] == db.history;
  }

  /** A status move recorded with the payment's current status keeps the tables valid. */
  lemma RecordValid(db: PaymentsDb, i: nat, p': Payment, comment: string)
    requires Valid(db) && i < |db.payments|
    requires p'.id == db.payments[i].id
    ensures Valid(Record(db, i, p', Some(db.payments[i].status), comment))
  {
    var db' := Record(db, i, p', Some(db.payments[i].status), comment);
    var x := HistoryRow(db.payments[i].id, Some(db.payments[i].status), p'.status, Some(comment));
    assert db'.history == db.history + [x];
    forall k | 0 <= k < |db'.payments| ensures Tracks(db'.history, db'.payments[k]) {
      if k == i {
        ExtendTracks(db.history, db.payments[i], x);
        assert db'.payments[k] == db.payments[i].(status := x.newStatus).(yookassaId := p'.yookassaId,
          confirmationUrl := p'.confirmationUrl, paidAt := p'.paidAt, userId := p'.userId, paymentType := p'.paymentType,
          amount := p'.amount, eventId := p'.eventId, period := p'.period, description := p'.description);
      } else {
        OtherTracks(db.history, db.payments[k], x);
      }
    }
    forall j | 0 <= j < |db'.history| ensures FindPayment(db'.payments, db'.history[j].paymentId).Some? {
      var pid := db'.history[j].paymentId;
      if j < |db.history| {
        var m := FindPayment(db.payments, pid).value;
        assert db'.payments[m].id == pid;
      } else {
        assert db'.payments[i].id == pid;
      }
    }
  }

  /** A new payment whose id is fresh, entered with a first history row, keeps the tables valid. */
  lemma AppendValid(db: PaymentsDb, p: Payment, comment: string)
    requires Valid(db) && FindPayment(db.payments, p.id).None?
    ensures var x := HistoryRow(p.id, None, p.status, Some(comment));
            var db' := PaymentsDb(db.payments + [p], db.history + [x]);
            Trace(db'.history, p.id) == [x] && Valid(db')
  {
    var x := HistoryRow(p.id, None, p.status, Some(comment));
    var db' := PaymentsDb(db.payments + [p], db.history + [x]);
    AppendTracked(db, p, x);
    AppendNoOrphans(db, p, x);
  }

  lemma AppendTracked(db: PaymentsDb, p: Payment, x: HistoryRow)
    requires AllTracked(db) && NoOrphans(db) && FindPayment(db.payments, p.id).None?
    requires x == HistoryRow(p.id, None, p.status, x.comment)
    ensures Trace(db.history + [x], p.id) == [x]
    ensures AllTracked(PaymentsDb(db.payments + [p], db.history + [x]))
  {
    forall j | 0 <= j < |db.history| ensures db.history[j].paymentId != p.id {
      assert FindPayment(db.payments, db.history[j].paymentId).Some?;
    }
    TraceAbsent(db.history, p.id);
    TraceAppend(db.history, x, p.id);
    var ps := db.payments + [p];
    forall k | 0 <= k < |ps| ensures Tracks(db.history + [x], ps[k]) {
      if k < |db.payments| {
        assert ps[k] == db.payments[k];
        OtherTracks(db.history, db.payments[k], x);
      }
    }
  }

  lemma AppendNoOrphans(db: PaymentsDb, p: Payment, x: HistoryRow)
    requires NoOrphans(db) && x.paymentId == p.id
    ensures NoOrphans(PaymentsDb(db.payments + [p], db.history + [x]))
  {
    var ps := db.payments + [p];
    var hs := db.history + [x];
    forall j | 0 <= j < |hs| ensures FindPayment(ps, hs[j].paymentId).Some? {
      var q := hs[j].paymentId;
      if j < |db.history| {
        var m := FindPayment(db.payments, q).value;
        assert ps[m].id == q;
      } else {
        assert ps[|db.payments|].id == q;
      }
    }
  }

  // ------------------------------------------------------------- the lemmas

  /** A created payment is PENDING, carries an event id only for an event payment, starts its history with None -> PENDING, and keeps the tables valid. */
  lemma CreateOutcome(db: PaymentsDb, events: seq<EventService.Event>, data: PaymentCreate, u: UserId, pid: PaymentId)
    requires Valid(db) && FindPayment(db.payments, pid).None?
    requires CreateSpec(db, events, data, u, pid).Ok?
    ensures var db' := CreateSpec(db, events, data, u, pid).value;
            var p := db'.payments[|db.payments|];
            && |db'.payments| == |db.payments| + 1
            && db'.payments[..|db.payments|] == db.payments
            && p.status == Pending && p.userId == u && p.amount == data.amount
            && (p.eventId.Some? ==> p.paymentType == EventFee)
            && Trace(db'.history, pid) == [HistoryRow(pid, None, Pending, Some(CommentCreated))]
            && Valid(db')
  {
    var p := NewPayment(pid, u, data);
    var db' := PaymentsDb(db.payments + [p], db.history + [HistoryRow(pid, None, Pending, Some(CommentCreated))]);
    assert CreateSpec(db, events, data, u, pid).value == db';
    assert db'.payments[..|db.payments|] == db.payments;
    AppendValid(db, p, CommentCreated);
  }

  /** Initiation moves a PENDING payment to PROCESSING with a checkout link built from its provider id, and keeps the tables valid. */
  lemma InitiateOutcome(db: PaymentsDb, pid: PaymentId, token: string)
    requires Valid(db) && InitiateSpec(db, pid, token).Ok?
    ensures var i := FindPayment(db.payments, pid).value;
            var db' := InitiateSpec(db, pid, token).value;
            && db.payments[i].status == Pending
            && db'.payments[i].status == Processing
            && db'.payments[i].yookassaId == Some("yookassa_" + token)
            && db'.payments[i].confirmationUrl == Some(CheckoutUrlPrefix + "yookassa_" + token)
            && db'.history == db.history + [HistoryRow(pid, Some(Pending), Processing, Some(CommentInitiated))]
            && Valid(db')
  {
    var i := FindPayment(db.payments, pid).value;
    var p := db.payments[i];
    var yid := "yookassa_" + token;
    RecordValid(db, i, p.(yookassaId := Some(yid), confirmationUrl := Some(CheckoutUrlPrefix + yid), status := Processing), CommentInitiated);
    assert CheckoutUrlPrefix + yid == CheckoutUrlPrefix + "yookassa_" + token;
  }

  /** Cancellation moves the payment to CANCELLED, records the status it left, and keeps the tables valid. */
  lemma CancelOutcome(db: PaymentsDb, pid: PaymentId)
    requires Valid(db) && CancelSpec(db, pid).Ok?
    ensures var i := FindPayment(db.payments, pid).value;
            var db' := CancelSpec(db, pid).value;
            && db.payments[i].status in {Pending, Processing, Failed}
            && db'.payments == db.payments[i := db.payments[i].(status := Cancelled)]
            && db'.history == db.history + [HistoryRow(pid, Some(db.payments[i].status), Cancelled, Some(CommentCancelledByUser))]
            && Valid(db')
  {
    var i := FindPayment(db.payments, pid).value;
    RecordValid(db, i, db.payments[i].(status := Cancelled), CommentCancelledByUser);
  }

  /** Without an object id, or for an unknown provider id, the webhook changes nothing and returns nothing. */
  lemma WebhookUnknownIsNoop(db: PaymentsDb, evdb: EventService.EventsDb, event: Option<string>, objectId: Option<string>, now: int, regId: string)
    requires !Truthy(objectId) || FindByYookassa(db.payments, objectId.value).None?
    ensures WebhookSpec(db, evdb, event, objectId, now, regId) == WebhookResult(db, evdb, None)
  {
  }

  /** The status the webhook sets for a known payment, whatever its current status. */
  function WebhookTarget(event: Option<string>): Option<PaymentStatus> {
    if event == Some("payment.succeeded") then Some(Success)
    else if event == Some("payment.canceled") then Some(Cancelled)
    else if event == Some("payment.waiting_for_capture") then Some(Processing)
    else None
  }

  /**
   * For a known payment the webhook returns it with the target status of
   * the event (keeping it as is for any other event), appends exactly one
   * history row when it moves, touches no other payment, and keeps the
   * tables valid.
   */
  lemma WebhookOutcome(db: PaymentsDb, evdb: EventService.EventsDb, event: Option<string>, objectId: Option<string>, now: int, regId: string)
    requires Valid(db) && Truthy(objectId) && FindByYookassa(db.payments, objectId.value).Some?
    ensures var i := FindByYookassa(db.payments, objectId.value).value;
            var w := WebhookSpec(db, evdb, event, objectId, now, regId);
            && w.payment.Some?
            && w.payment.value.id == db.payments[i].id
            && |w.db.payments| == |db.payments|
            && w.db.payments[i] == w.payment.value
            && (forall k :: 0 <= k < |db.payments| && k != i ==> w.db.payments[k] == db.payments[k])
            && (WebhookTarget(event).Some? ==>
                  && w.payment.value.status == WebhookTarget(event).value
                  && |w.db.history| == |db.history| + 1
                  && w.db.history[..|db.history|] == db.history
                  && w.db.history[|db.history|].oldStatus == Some(db.payments[i].status))
            && (WebhookTarget(event).None? ==> w.db == db && w.events == evdb)
            && w.payment.value.paidAt == (if event == Some("payment.succeeded") then Some(now) else db.payments[i].paidAt)
            && (event != Some("payment.succeeded") ==> w.events == evdb)
            && Valid(w.db)
  {
    var i := FindByYookassa(db.payments, objectId.value).value;
    var p := db.payments[i];
    if event == Some("payment.succeeded") {
      var p' := p.(status := Success, paidAt := Some(now));
      assert WebhookSpec(db, evdb, event, objectId, now, regId)
        == WebhookResult(Record(db, i, p', Some(p.status), CommentSucceeded), RegisterOnSuccess(evdb, p, now, regId), Some(p'));
      RecordShape(db, i, p', Some(p.status), CommentSucceeded);
      RecordValid(db, i, p', CommentSucceeded);
    } else if event == Some("payment.canceled") {
      var p' := p.(status := Cancelled);
      assert WebhookSpec(db, evdb, event, objectId, now, regId)
        == WebhookResult(Record(db, i, p', Some(p.status), CommentCanceled), evdb, Some(p'));
      RecordShape(db, i, p', Some(p.status), CommentCanceled);
      RecordValid(db, i, p', CommentCanceled);
    } else if event == Some("payment.waiting_for_capture") {
      var p' := p.(status := Processing);
      assert WebhookSpec(db, evdb, event, objectId, now, regId)
        == WebhookResult(Record(db, i, p', Some(p.status), CommentWaiting), evdb, Some(p'));
      RecordShape(db, i, p', Some(p.status), CommentWaiting);
      RecordValid(db, i, p', CommentWaiting);
    }
  }

  /** The webhook does not look at the current status: even a cancelled or refunded payment becomes SUCCESS. */
  lemma WebhookRevivesClosedPayment(db: PaymentsDb, evdb: EventService.EventsDb, objectId: string, now: int, regId: string)
    requires objectId != "" && FindByYookassa(db.payments, objectId).Some?
    requires db.payments[FindByYookassa(db.payments, objectId).value].status in {Cancelled, Refunded}
    ensures WebhookSpec(db, evdb, Some("payment.succeeded"), Some(objectId), now, regId).payment.value.status == Success
  {
  }

  /**
   * A successful event payment registers its payer for the event when the
   * registration goes through; when it is refused the events tables stay as
   * they were.  Either way they stay valid.
   */
  lemma WebhookRegistersPayer(db: PaymentsDb, evdb: EventService.EventsDb, objectId: string, now: int, regId: string)
    requires EventService.Valid(evdb)
    requires objectId != "" && FindByYookassa(db.payments, objectId).Some?
    ensures var p := db.payments[FindByYookassa(db.payments, objectId).value];
            var w := WebhookSpec(db, evdb, Some("payment.succeeded"), Some(objectId), now, regId);
            && EventService.Valid(w.events)
            && (p.paymentType == EventFee && p.eventId.Some?
                && EventService.RegisterSpec(evdb, p.eventId.value, p.userId, now, regId).Ok?
                ==> EventService.IsUserRegistered(w.events, p.eventId.value, p.userId))
            && (!(p.paymentType == EventFee && p.eventId.Some?)
                || EventService.RegisterSpec(evdb, p.eventId.value, p.userId, now, regId).Err?
                ==> w.events == evdb)
  {
    var p := db.payments[FindByYookassa(db.payments, objectId).value];
    if p.paymentType == EventFee && p.eventId.Some? && EventService.RegisterSpec(evdb, p.eventId.value, p.userId, now, regId).Ok? {
      var e := p.eventId.value;
      EventService.RegisterOutcome(evdb, e, p.userId, now, regId);
      var evdb' := EventService.RegisterSpec(evdb, e, p.userId, now, regId).value;
      assert evdb'.regs[|evdb.regs|] == EventService.Registration(regId, e, p.userId, now);
    }
  }

  // ---------------------------------------------------------------- balance

  /** Payments still to be paid. */
  predicate Unpaid(p: Payment) {
    p.status == Pending || p.status == Processing
  }

  /** What one payment adds to the user's amount owed of type t. */
  function Owes(p: Payment, u: UserId, t: PaymentType): int {
    if p.userId == u && Unpaid(p) && p.paymentType == t then p.amount else 0
  }

  /** The sum get_user_balance_info accumulates for type t, in table order. */
  function Owed(payments: seq<Payment>, u: UserId, t: PaymentType): int {
    if payments == [] then 0
    else Owed(payments[..|payments| - 1], u, t) + Owes(payments[|payments| - 1], u, t)
  }

  datatype Balance = Balance(tuition: int, dormitory: int, total: int)

  /** The balance of user u: tuition and dormitory sums; event payments never count. */
  function BalanceOf(payments: seq<Payment>, u: UserId): Balance {
    var t := Owed(payments, u, TuitionFee);
    var d := Owed(payments, u, DormitoryFee);
    Balance(t, d, t + d)
  }

  lemma OwedAppend(payments: seq<Payment>, p: Payment, u: UserId, t: PaymentType)
    ensures Owed(payments + [p], u, t) == Owed(payments, u, t) + Owes(p, u, t)
  {
    assert (payments + [p])[..|payments|] == payments;
  }

  /** Replacing one payment changes each sum by the difference of what the two payments owe. */
  lemma {:induction false} OwedUpdate(payments: seq<Payment>, i: nat, p': Payment, u: UserId, t: PaymentType)
    requires i < |payments|
    ensures Owed(payments[i := p'], u, t) == Owed(payments, u, t) - Owes(payments[i], u, t) + Owes(p', u, t)
  {
    var n := |payments| - 1;
    var s' := payments[i := p'];
    if i == n {
      assert s'[..n] == payments[..n];
    } else {
      OwedUpdate(payments[..n], i, p', u, t);
      assert s'[..n] == payments[..n][i := p'];
    }
  }

  /** Replacing one payment changes the balance by the difference of what the two payments owe. */
  lemma BalanceUpdate(payments: seq<Payment>, i: nat, p': Payment, u: UserId)
    requires i < |payments|
    ensures var b := BalanceOf(payments, u);
            var b' := BalanceOf(payments[i := p'], u);
            && b'.tuition == b.tuition - Owes(payments[i], u, TuitionFee) + Owes(p', u, TuitionFee)
            && b'.dormitory == b.dormitory - Owes(payments[i], u, DormitoryFee) + Owes(p', u, DormitoryFee)
  {
    OwedUpdate(payments, i, p', u, TuitionFee);
    OwedUpdate(payments, i, p', u, DormitoryFee);
  }

  /** Event payments are never in the balance. */
  lemma EventPaymentsNeverOwed(payments: seq<Payment>, u: UserId, i: nat, p': Payment)
    requires i < |payments| && payments[i].paymentType == EventFee && p'.paymentType == EventFee
    ensures BalanceOf(payments[i := p'], u) == BalanceOf(payments, u)
  {
    BalanceUpdate(payments, i, p', u);
  }

  /** Creating a payment raises the payer's balance by its amount, unless it is an event payment. */
  lemma CreateRaisesBalance(db: PaymentsDb, events: seq<EventService.Event>, data: PaymentCreate, u: UserId, pid: PaymentId)
    requires CreateSpec(db, events, data, u, pid).Ok?
    ensures var b := BalanceOf(db.payments, u);
            var b' := BalanceOf(CreateSpec(db, events, data, u, pid).value.payments, u);
            b'.total == b.total + (if data.paymentType == EventFee then 0 else data.amount)
  {
    var p := NewPayment(pid, u, data);
    assert CreateSpec(db, events, data, u, pid).value.payments == db.payments + [p];
    OwedAppend(db.payments, p, u, TuitionFee);
    OwedAppend(db.payments, p, u, DormitoryFee);
  }

  /** Initiation keeps every balance: PENDING and PROCESSING both count as unpaid. */
  lemma InitiateKeepsBalance(db: PaymentsDb, pid: PaymentId, token: string, u: UserId)
    requires InitiateSpec(db, pid, token).Ok?
    ensures BalanceOf(InitiateSpec(db, pid, token).value.payments, u) == BalanceOf(db.payments, u)
  {
    var i := FindPayment(db.payments, pid).value;
    var p := db.payments[i];
    var yid := "yookassa_" + token;
    var p' := p.(yookassaId := Some(yid), confirmationUrl := Some(CheckoutUrlPrefix + yid), status := Processing);
    assert InitiateSpec(db, pid, token).value.payments == db.payments[i := p'];
    BalanceUpdate(db.payments, i, p', u);
  }

  /** Cancelling a tuition or dormitory payment lowers its payer's total by its amount. */
  lemma CancelLowersBalance(db: PaymentsDb, pid: PaymentId)
    requires CancelSpec(db, pid).Ok?
    ensures var p := db.payments[FindPayment(db.payments, pid).value];
            var b := BalanceOf(db.payments, p.userId);
            var b' := BalanceOf(CancelSpec(db, pid).value.payments, p.userId);
            b'.total == b.total - (if Unpaid(p) && p.paymentType != EventFee then p.amount else 0)
  {
    var i := FindPayment(db.payments, pid).value;
    var p := db.payments[i];
    var p' := p.(status := Cancelled);
    assert CancelSpec(db, pid) == Ok(Record(db, i, p', Some(p.status), CommentCancelledByUser));
    BalanceUpdate(db.payments, i, p', p.userId);
  }

  // ------------------------------------------------------------ the service

  /** The payments and payment_history tables, updated in place. */
  class PaymentStore {
    var payments: seq<Payment>
    var history: seq<HistoryRow>

    function State(): PaymentsDb
      reads this
    {
      PaymentsDb(payments, history)
    }

    constructor(payments: seq<Payment>, history: seq<HistoryRow>)
      ensures State() == PaymentsDb(payments, history)
    {
      this.payments := payments;
      this.history := history;
    }

    /** _add_payment_history: append one row. */
    method AddHistory(pid: PaymentId, oldStatus: Option<PaymentStatus>, newStatus: PaymentStatus, comment: string)
      modifies this
      ensures payments == old(payments)
      ensures history == old(history) + [HistoryRow(pid, oldStatus, newStatus, Some(comment))]
    {
      history := history + [HistoryRow(pid, oldStatus, newStatus, Some(comment))];
    }

    method Create(events: seq<EventService.Event>, data: PaymentCreate, u: UserId, pid: PaymentId) returns (r: Result<Payment>)
      modifies this
      ensures CreateSpec(old(State()), events, data, u, pid).Err? ==>
                State() == old(State()) && r == Err(CreateSpec(old(State()), events, data, u, pid).error)
      ensures CreateSpec(old(State()), events, data, u, pid).Ok? ==>
                State() == CreateSpec(old(State()), events, data, u, pid).value && r == Ok(NewPayment(pid, u, data))
    {
      var err := CreateError(events, data);
      if err.Some? {
        return Err(err.value);
      }
      var p := NewPayment(pid, u, data);
      payments := payments + [p];
      AddHistory(pid, None, Pending, CommentCreated);
      return Ok(p);
    }

    method Initiate(pid: PaymentId, token: string) returns (r: Result<Payment>)
      modifies this
      ensures InitiateSpec(old(State()), pid, token).Err? ==>
                State() == old(State()) && r == Err(InitiateSpec(old(State()), pid, token).error)
      ensures InitiateSpec(old(State()), pid, token).Ok? ==>
                State() == InitiateSpec(old(State()), pid, token).value
                && r == Ok(payments[FindPayment(old(payments), pid).value])
    {
      var i := FindPayment(payments, pid);
      if i.None? {
        return Err(ErrPaymentNotFound);
      }
      var p := payments[i.value];
      if p.status != Pending {
        return Err(ErrAlreadyProcessed);
      }
      var yid := "yookassa_" + token;
      var p' := p.(yookassaId := Some(yid), confirmationUrl := Some(CheckoutUrlPrefix + yid), status := Processing);
      payments := payments[i.value := p'];
      AddHistory(p.id, Some(Pending), Processing, CommentInitiated);
      return Ok(p');
    }

    method Cancel(pid: PaymentId) returns (r: Result<Payment>)
      modifies this
      ensures CancelSpec(old(State()), pid).Err? ==>
                State() == old(State()) && r == Err(CancelSpec(old(State()), pid).error)
      ensures CancelSpec(old(State()), pid).Ok? ==>
                State() == CancelSpec(old(State()), pid).value
                && r == Ok(payments[FindPayment(old(payments), pid).value])
    {
      var i := FindPayment(payments, pid);
      if i.None? {
        return Err(ErrPaymentNotFound);
      }
      var p := payments[i.value];
      if p.status in {Success, Cancelled, Refunded} {
        return Err(ErrCannotCancel);
      }
      var oldStatus := p.status;
      payments := payments[i.value := p.(status := Cancelled)];
      AddHistory(p.id, Some(oldStatus), Cancelled, CommentCancelledByUser);
      return Ok(p.(status := Cancelled));
    }

    /** process_yookassa_webhook over this store and the events store it registers into. */
    method ProcessWebhook(store: EventService.EventStore, event: Option<string>, objectId: Option<string>, now: int, regId: string)
      returns (r: Option<Payment>)
      modifies this, store
      ensures var w := WebhookSpec(old(State()), old(store.State()), event, objectId, now, regId);
              State() == w.db && store.State() == w.events && r == w.payment
    {
      if objectId.None? || objectId.value == "" {
        return None;
      }
      var found := FindByYookassa(payments, objectId.value);
      if found.None? {
        return None;
      }
      var i := found.value;
      var p := payments[i];
      var oldStatus := p.status;
      if event == Some("payment.succeeded") {
        var p' := p.(status := Success, paidAt := Some(now));
        payments := payments[i := p'];
        AddHistory(p.id, Some(oldStatus), Success, CommentSucceeded);
        if p.eventId.Some? && p.paymentType == EventFee {
          var _ := store.Register(p.eventId.value, p.userId, now, regId);
        }
        return Some(p');
      } else if event == Some("payment.canceled") {
        var p' := p.(status := Cancelled);
        payments := payments[i := p'];
        AddHistory(p.id, Some(oldStatus), Cancelled, CommentCanceled);
        return Some(p');
      } else if event == Some("payment.waiting_for_capture") {
        var p' := p.(status := Processing);
        payments := payments[i := p'];
        AddHistory(p.id, Some(oldStatus), Processing, CommentWaiting);
        return Some(p');
      }
      return Some(p);
    }

    /** get_user_balance_info: one pass over the payments, summing unpaid tuition and dormitory amounts. */
    method GetBalance(u: UserId) returns (b: Balance)
      ensures b == BalanceOf(payments, u)
      ensures b.total == b.tuition + b.dormitory
    {
      var tuition := 0;
      var dormitory := 0;
      var k := 0;
      while k < |payments|
        invariant 0 <= k <= |payments|
        invariant tuition == Owed(payments[..k], u, TuitionFee)
        invariant dormitory == Owed(payments[..k], u, DormitoryFee)
      {
        var p := payments[k];
        assert payments[..k + 1][..k] == payments[..k];
        if p.userId == u && (p.status == Pending || p.status == Processing) {
          if p.paymentType == TuitionFee {
            tuition := tuition + p.amount;
          } else if p.paymentType == DormitoryFee {
            dormitory := dormitory + p.amount;
          }
        }
        k := k + 1;
      }
      assert payments[..k] == payments;
      return Balance(tuition, dormitory, tuition + dormitory);
    }
  }
}
