/**
  The `auth` slice of the Redux store: a record `{phone, status, error}`
  driven by the pending, fulfilled and rejected actions of the two OTP
  thunks, `generateOtp` and `validateOtp`.

  Both thunks are created with the same action-type prefix,
  `auth/generateOtp`, so the reducer cases registered for `generateOtp`
  also fire for every action of `validateOtp`. The remote call itself is
  not modelled: its outcome is an input (`CallOutcome`).
*/
module AuthSlice {
  import opened Js

  /** The URL both thunks send their GET request to. */
  const Endpoint := "https://abvv.ac.in/api/api/website/whats-new"

  /** The `error.message` Redux Toolkit puts on an action rejected through
      `rejectWithValue`. */
  const RejectedWithValueMessage := "Rejected"

  datatype Thunk = GenerateOtp | ValidateOtp

  /** The type prefix each thunk is created with. `validateOtp` reuses
      the prefix of `generateOtp`. */
  function TypePrefix(t: Thunk): string
  {
    match t
    case GenerateOtp => "auth/generateOtp"
    case ValidateOtp => "auth/generateOtp"
  }

  datatype Phase = Pending | Fulfilled | Rejected

  function ActionType(t: Thunk, p: Phase): string
  {
    TypePrefix(t) + match p
      case Pending => "/pending"
      case Fulfilled => "/fulfilled"
      case Rejected => "/rejected"
  }

  /** The argument a screen passes to a thunk: `{ phone }` or `{ phone, otp }`. */
  datatype ThunkArg = ThunkArg(phone: JsValue, otp: JsValue)

  /** A GET request: the URL and the `mobile_number` of the object given to
      `axios.get` as its second argument. */
  datatype Request = Get(url: string, mobileNumber: JsValue)

  /** The request a thunk issues. Both thunks read only `phone` from their
      argument: the OTP a caller passes to `validateOtp` is never sent. */
  function RequestFor(t: Thunk, arg: ThunkArg): (req: Request)
    ensures req.url == Endpoint && req.mobileNumber == arg.phone
  {
    Get(Endpoint, arg.phone)
  }

  /** How the remote call ended: resolved with the response body, or failed
      with an optional HTTP response body (`err.response?.data`) and
      `err.message`. */
  datatype CallOutcome =
    | Resolved(data: JsValue)
    | Errored(response: Option<JsValue>, message: JsValue)

  /** The value a failed thunk rejects with: the response body when it is
      truthy, else the error message. */
  function RejectValue(response: Option<JsValue>, message: JsValue): (v: JsValue)
    ensures response.Some? && Truthy(response.value) ==> v == response.value
    ensures (response.None? || !Truthy(response.value)) ==> v == message
  {
    Or(match response case Some(data) => data case None => Undefined, message)
  }

  /** An action as the reducer sees it. */
  datatype Action = Action(actionType: string, arg: ThunkArg, payload: JsValue, errorMessage: JsValue)

  function PendingAction(t: Thunk, arg: ThunkArg): Action
  {
    Action(ActionType(t, Pending), arg, Undefined, Undefined)
  }

  /** The action that settles a call: fulfilled with the response body, or
      rejected with the reject value as payload. */
  function SettleAction(t: Thunk, arg: ThunkArg, outcome: CallOutcome): (a: Action)
    ensures a.arg == arg
    ensures outcome.Resolved? ==> a.actionType == ActionType(t, Fulfilled) && a.payload == outcome.data
    ensures outcome.Errored? ==>
      a.actionType == ActionType(t, Rejected) && a.payload == RejectValue(outcome.response, outcome.message)
  {
    match outcome
    case Resolved(data) => Action(ActionType(t, Fulfilled), arg, data, Undefined)
    case Errored(response, message) =>
      Action(ActionType(t, Rejected), arg, RejectValue(response, message), Str(RejectedWithValueMessage))
  }

  /** The actions one dispatch of a thunk produces, in order. */
  function Lifecycle(t: Thunk, arg: ThunkArg, outcome: CallOutcome): seq<Action>
  {
    [PendingAction(t, arg), SettleAction(t, arg, outcome)]
  }

  /** The error object Redux Toolkit attaches to a rejected action whose
      thunk rejected with a value: `{ message: 'Rejected' }`. */
  const SerializedRejection := Obj("{\"message\":\"Rejected\"}")

  /** What `dispatch(thunk(arg)).unwrap()` throws on a rejection. `unwrap`
      throws the payload when the action records that the thunk rejected
      with a value, which Redux Toolkit decides by the payload's
      truthiness; otherwise it throws the action's serialized error. Either
      way the thrown value is truthy. */
  function Unwrapped(outcome: CallOutcome): (err: JsValue)
    requires outcome.Errored?
    ensures forall t, arg ::
      Truthy(SettleAction(t, arg, outcome).payload) ==> err == SettleAction(t, arg, outcome).payload
    ensures forall t, arg ::
      !Truthy(SettleAction(t, arg, outcome).payload) ==> err == SerializedRejection
    ensures Truthy(err)
  {
    var v := RejectValue(outcome.response, outcome.message);
    if Truthy(v) then v else SerializedRejection
  }

  // ---------------------------------------------------------------------
  // The state and its reducer

  datatype Status = Idle | Loading | Succeeded | Failed

  datatype AuthRecord = AuthRecord(phone: JsValue, status: Status, error: JsValue)

  const Initial := AuthRecord(Null, Idle, Null)

  /** The three action types the slice reacts to. */
  const HandledTypes := {ActionType(GenerateOtp, Pending), ActionType(GenerateOtp, Fulfilled), ActionType(GenerateOtp, Rejected)}

  /** The slice's reducer: `extraReducers` keyed on the three action types
      of the `auth/generateOtp` prefix; any other action leaves the state
      as it is. */
  function Step(s: AuthRecord, a: Action): (r: AuthRecord)
    ensures a.actionType !in HandledTypes ==> r == s
    ensures r.phone == s.phone || r.phone == a.arg.phone
    ensures r.status == Idle ==> r == s
    ensures r.status == Loading && s.status != Loading ==> r.error == Null
    ensures r.status == Succeeded && s.status != Succeeded ==> r.phone == a.arg.phone && r.error == s.error
    ensures r.status == Failed && s.status != Failed ==> r.phone == s.phone
  {
    if a.actionType == ActionType(GenerateOtp, Pending) then
      s.(status := Loading, error := Null)
    else if a.actionType == ActionType(GenerateOtp, Fulfilled) then
      s.(status := Succeeded, phone := a.arg.phone)
    else if a.actionType == ActionType(GenerateOtp, Rejected) then
      s.(status := Failed, error := Or(a.payload, a.errorMessage))
    else s
  }

  function Run(s: AuthRecord, actions: seq<Action>): AuthRecord
    decreases |actions|
  {
    if actions == [] then s else Run(Step(s, actions[0]), actions[1..])
  }

  /** Each action of `validateOtp` changes the state exactly as the
      corresponding action of `generateOtp` does, and each phase has an
      effect that is visible in the status. */
  lemma ValidateOtpDrivesSameTransitions(s: AuthRecord, a: Action, p: Phase)
    ensures Step(s, a.(actionType := ActionType(ValidateOtp, p))) == Step(s, a.(actionType := ActionType(GenerateOtp, p)))
    ensures Step(s, a.(actionType := ActionType(ValidateOtp, p))).status ==
      match p case Pending => Loading case Fulfilled => Succeeded case Rejected => Failed
  {
    var pend, ful, rej := ActionType(GenerateOtp, Pending), ActionType(GenerateOtp, Fulfilled), ActionType(GenerateOtp, Rejected);
    assert pend[|pend| - 3] != ful[|ful| - 3] && pend[|pend| - 3] != rej[|rej| - 3];
    assert ful[|ful| - 3] != rej[|rej| - 3];
  }

  /** The state facts every reachable state satisfies: `idle` is only ever
      the untouched initial state, and while a call is `loading` no error
      is shown. */
  ghost predicate Coherent(s: AuthRecord)
  {
    (s.status == Idle ==> s == Initial) &&
    (s.status == Loading ==> s.error == Null)
  }

  lemma {:induction false} RunPreservesCoherent(s: AuthRecord, actions: seq<Action>)
    requires Coherent(s)
    ensures Coherent(Run(s, actions))
    decreases |actions|
  {
    if actions != [] {
      RunPreservesCoherent(Step(s, actions[0]), actions[1..]);
    }
  }

  lemma ReachableStatesAreCoherent(actions: seq<Action>)
    ensures Coherent(Run(Initial, actions))
  {
    RunPreservesCoherent(Initial, actions);
  }

  /** A whole call, pending then settled: on success the status is
      `succeeded`, the phone is the argument's and the error is cleared; on
      failure the status is `failed`, the phone is kept and the error is the
      reject value, or Redux Toolkit's message when that value is falsy, so
      it is never falsy. */
  lemma CallLifecycle(s: AuthRecord, t: Thunk, arg: ThunkArg, outcome: CallOutcome)
    ensures outcome.Resolved? ==>
      Run(s, Lifecycle(t, arg, outcome)) == AuthRecord(arg.phone, Succeeded, Null)
    ensures outcome.Errored? ==>
      var r := Run(s, Lifecycle(t, arg, outcome));
      r.phone == s.phone && r.status == Failed && Truthy(r.error) &&
      r.error == Or(RejectValue(outcome.response, outcome.message), Str(RejectedWithValueMessage))
  {
    var actions := Lifecycle(t, arg, outcome);
    ValidateOtpDrivesSameTransitions(s, actions[0], Pending);
    var mid := Step(s, actions[0]);
    assert Run(s, actions) == Run(Step(mid, actions[1]), []) by {
      assert actions[1..][1..] == [];
    }
    match outcome {
      case Resolved(_) => ValidateOtpDrivesSameTransitions(mid, actions[1], Fulfilled);
      case Errored(_, _) => ValidateOtpDrivesSameTransitions(mid, actions[1], Rejected);
    }
  }

  /** The slice state, updated in place by one method per reducer case. */
  class AuthState {
    var phone: JsValue
    var status: Status
    var error: JsValue

    function Record(): AuthRecord
      reads this
    {
      AuthRecord(phone, status, error)
    }

    /** `initialState`. */
    constructor ()
      ensures Record() == Initial
    {
      phone, status, error := Null, Idle, Null;
    }

    /** The `pending` case: loading, error cleared, phone kept. */
    method OnPending()
      modifies this
      ensures status == Loading && error == Null && phone == old(phone)
    {
      status := Loading;
      error := Null;
    }

    /** The `fulfilled` case: succeeded, phone taken from the argument,
        error kept. */
    method OnFulfilled(arg: ThunkArg)
      modifies this
      ensures status == Succeeded && phone == arg.phone && error == old(error)
    {
      status := Succeeded;
      phone := arg.phone;
    }

    /** The `rejected` case: failed, error set to the payload when truthy
        and to the action's error message otherwise, phone kept. */
    method OnRejected(payload: JsValue, errorMessage: JsValue)
      modifies this
      ensures status == Failed && phone == old(phone)
      ensures error == (if Truthy(payload) then payload else errorMessage)
    {
      status := Failed;
      error := Or(payload, errorMessage);
    }

    /** The reducer: picks the case by the action's type. */
    method Dispatch(a: Action)
      modifies this
      ensures Record() == Step(old(Record()), a)
    {
      if a.actionType == ActionType(GenerateOtp, Pending) {
        OnPending();
      } else if a.actionType == ActionType(GenerateOtp, Fulfilled) {
        OnFulfilled(a.arg);
      } else if a.actionType == ActionType(GenerateOtp, Rejected) {
        OnRejected(a.payload, a.errorMessage);
      }
    }

    /** `dispatch(thunk(arg))`: the pending action, then the settling one.
        Returns whether `unwrap()` resolves. */
    method Call(t: Thunk, arg: ThunkArg, outcome: CallOutcome) returns (request: Request, fulfilled: bool)
      modifies this
      ensures request == RequestFor(t, arg)
      ensures Record() == Run(old(Record()), Lifecycle(t, arg, outcome))
      ensures fulfilled <==> outcome.Resolved?
    {
      var actions := Lifecycle(t, arg, outcome);
      ghost var s0 := Record();
      Dispatch(actions[0]);
      ghost var s1 := Record();
      Dispatch(actions[1]);
      assert actions[1..][1..] == [];
      assert Run(s0, actions) == Run(s1, actions[1..]);
      request, fulfilled := RequestFor(t, arg), outcome.Resolved?;
    }
  }
}
