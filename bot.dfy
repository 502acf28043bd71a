/**
 * The conversation of the chat bot: four question/answer states and the per-user data the
 * handlers keep between messages.
 */
module Bot {
  import opened Wrappers
  import Calculator
  import BotText

  /** The conversation states; `End` is also the state of a user with no conversation going on. */
  datatype State = AskAmount | AskTerm | AskRate | ShowResult | End

  /** The chat user who sent `/start`, kept as an opaque identifier. */
  datatype User = User(id: int)

  /** What the per-user map holds. */
  datatype Value =
    | UserValue(user: User)
    | IntValue(n: nat)
    | RealValue(x: real)
    | PaymentsValue(payments: seq<Calculator.PaymentRecord>)

  /** Exceptions a handler can raise. */
  datatype Error = KeyError(key: string) | TypeError(key: string) | ZeroDivisionError

  /** A handler either returns the next state or raises. */
  datatype Outcome = Next(state: State) | Raised(error: Error)

  /** The inline keyboard buttons, by their callback data. */
  datatype Button = Restart | ShowPayments | ShowResults

  /** What arrives from the chat: the `/start` command, a plain (non-command) text, or a button press. */
  datatype Event = StartCommand(user: User) | Text(text: string) | Press(button: Button)

  /** The handler the conversation routes an event to. */
  datatype Handler =
    | StartHandler | AskAmountHandler | AskTermHandler | AskRateHandler
    | RestartHandler | ShowPaymentsHandler | ShowResultsHandler | FallbackHandler

  /** The keys the results screen reads, in the order it reads them. */
  const ResultKeys: seq<string> := ["amount", "term", "rate", "monthly_payment", "total_payment", "overpayment"]

  /** The first of `keys` missing from `data`, if any. */
  function FirstMissing(data: map<string, Value>, keys: seq<string>): (m: Option<string>)
    ensures m.None? <==> forall i :: 0 <= i < |keys| ==> keys[i] in data
    ensures m.Some? ==> exists i :: 0 <= i < |keys| && keys[i] == m.value && m.value !in data
                          && forall j :: 0 <= j < i ==> keys[j] in data
  {
    if keys == [] then None
    else if keys[0] !in data then Some(keys[0])
    else
      var rest := FirstMissing(data, keys[1..]);
      assert forall i :: 1 <= i < |keys| ==> keys[i] == keys[1..][i - 1];
      rest
  }

  /** The values stored under `keys`, in the order of the keys. */
  function Values(data: map<string, Value>, keys: seq<string>): (vs: seq<Value>)
    requires forall i :: 0 <= i < |keys| ==> keys[i] in data
    ensures |vs| == |keys| && forall i :: 0 <= i < |keys| ==> vs[i] == data[keys[i]]
  {
    seq(|keys|, i requires 0 <= i < |keys| => data[keys[i]])
  }

  /** `FirstMissing` worked out for the keys of the results screen. */
  lemma FirstMissingResultKeys(data: map<string, Value>)
    ensures FirstMissing(data, ResultKeys) ==
      if "amount" !in data then Some("amount")
      else if "term" !in data then Some("term")
      else if "rate" !in data then Some("rate")
      else if "monthly_payment" !in data then Some("monthly_payment")
      else if "total_payment" !in data then Some("total_payment")
      else if "overpayment" !in data then Some("overpayment")
      else None
  {
    var k0 := ResultKeys;
    var k1 := ["term", "rate", "monthly_payment", "total_payment", "overpayment"];
    var k2 := ["rate", "monthly_payment", "total_payment", "overpayment"];
    var k3 := ["monthly_payment", "total_payment", "overpayment"];
    var k4 := ["total_payment", "overpayment"];
    var k5 := ["overpayment"];
    assert k0[1..] == k1 && k1[1..] == k2 && k2[1..] == k3 && k3[1..] == k4 && k4[1..] == k5 && k5[1..] == [];
    assert FirstMissing(data, k5) == if "overpayment" !in data then Some("overpayment") else None;
    assert FirstMissing(data, k4) == if "total_payment" !in data then Some("total_payment") else FirstMissing(data, k5);
    assert FirstMissing(data, k3) == if "monthly_payment" !in data then Some("monthly_payment") else FirstMissing(data, k4);
    assert FirstMissing(data, k2) == if "rate" !in data then Some("rate") else FirstMissing(data, k3);
    assert FirstMissing(data, k1) == if "term" !in data then Some("term") else FirstMissing(data, k2);
    assert FirstMissing(data, k0) == if "amount" !in data then Some("amount") else FirstMissing(data, k1);
  }

  /** A stored number as a real: integers and floats both take part in the arithmetic. */
  function AsNumber(v: Value): (x: Option<real>)
    ensures x.Some? <==> v.IntValue? || v.RealValue?
  {
    match v
    case IntValue(n) => Some(n as real)
    case RealValue(x) => Some(x)
    case _ => None
  }

  /** The amount and the term the rate handler reads back, or the exception reading them raises. */
  function LoanInputs(data: map<string, Value>): (res: Result<(real, nat), Error>)
    ensures res.Success? <==>
      "amount" in data && "term" in data && AsNumber(data["amount"]).Some? && data["term"].IntValue?
    ensures res.Success? ==> res.value == (AsNumber(data["amount"]).value, data["term"].n)
  {
    if "amount" !in data then Failure(KeyError("amount"))
    else if "term" !in data then Failure(KeyError("term"))
    else if AsNumber(data["amount"]).None? then Failure(TypeError("amount"))
    else if !data["term"].IntValue? then Failure(TypeError("term"))
    else Success((AsNumber(data["amount"]).value, data["term"].n))
  }

  /** What the rate handler stores after a successful calculation, on top of the rate itself. */
  function WithResults(data: map<string, Value>, amount: real, term: nat, p: real, payments: seq<Calculator.PaymentRecord>)
    : map<string, Value>
  {
    data["monthly_payment" := RealValue(p)]
        ["total_payment" := RealValue(Calculator.TotalPaid(p, term))]
        ["overpayment" := RealValue(Calculator.TotalPaid(p, term) - amount)]
        ["payments" := PaymentsValue(payments)]
  }

  /** Which handler deals with `event` in `state`; `None` when the event is ignored. */
  function Route(state: State, event: Event): (h: Option<Handler>)
    ensures h == Some(StartHandler) <==> state == End && event.StartCommand?
    ensures h == Some(FallbackHandler) <==> state != End && event.StartCommand?
    ensures h.None? <==> match event
      case StartCommand(_) => false
      case Text(_) => state == ShowResult || state == End
      case Press(_) => state != ShowResult
    ensures event.Text? && state == AskAmount ==> h == Some(AskAmountHandler)
    ensures event.Text? && state == AskTerm ==> h == Some(AskTermHandler)
    ensures event.Text? && state == AskRate ==> h == Some(AskRateHandler)
    ensures state == ShowResult && event == Press(Restart) ==> h == Some(RestartHandler)
    ensures state == ShowResult && event == Press(ShowPayments) ==> h == Some(ShowPaymentsHandler)
    ensures state == ShowResult && event == Press(ShowResults) ==> h == Some(ShowResultsHandler)
  {
    match event
    case StartCommand(_) => Some(if state == End then StartHandler else FallbackHandler)
    case Text(_) =>
      (match state
       case AskAmount => Some(AskAmountHandler)
       case AskTerm => Some(AskTermHandler)
       case AskRate => Some(AskRateHandler)
       case _ => None)
    case Press(button) =>
      if state != ShowResult then None
      else
        (match button
         case Restart => Some(RestartHandler)
         case ShowPayments => Some(ShowPaymentsHandler)
         case ShowResults => Some(ShowResultsHandler))
  }

  /**
   * What the rate handler answers and what it leaves stored, given the stored data and the result
   * of parsing the text as a float (`None` when the text is not a number).
   */
  function RateAnswer(data: map<string, Value>, parsed: Option<real>, round2: real -> real)
    : (answer: (Outcome, map<string, Value>))
    ensures answer.0 == Next(AskRate) <==> parsed.None?
    ensures parsed.None? ==> answer.1 == data
    ensures parsed.Some? ==>
      && "rate" in answer.1 && answer.1["rate"] == RealValue(parsed.value)
      && (forall k :: k in data ==> k in answer.1)
    ensures answer.0.Raised? ==> answer.1 == data["rate" := RealValue(parsed.value)]
    ensures answer.0.Raised? && answer.0.error != ZeroDivisionError ==>
      LoanInputs(answer.1) == Failure(answer.0.error)
    ensures answer.0 == Next(ShowResult) ==>
      && (forall k :: k in ResultKeys ==> k in answer.1)
      && "payments" in answer.1 && answer.1["payments"].PaymentsValue?
      && answer.1["term"].IntValue?
      && |answer.1["payments"].payments| == answer.1["term"].n
    ensures answer.0.Next? ==> answer.0.state in {AskRate, ShowResult}
  {
    if parsed.None? then (Next(AskRate), data)
    else
      var withRate := data["rate" := RealValue(parsed.value)];
      match LoanInputs(withRate)
      case Failure(e) => (Raised(e), withRate)
      case Success((amount, term)) =>
        match Calculator.MonthlyPayment(amount, parsed.value, term)
        case Failure(_) => (Raised(ZeroDivisionError), withRate)
        case Success(p) =>
          Calculator.ScheduleShape(amount, Calculator.MonthlyRate(parsed.value), p, round2, term);
          (Next(ShowResult),
           WithResults(withRate, amount, term, p,
             Calculator.Schedule(amount, Calculator.MonthlyRate(parsed.value), p, round2, term)))
  }

  /** What the stored data is known to hold in each state of the conversation. */
  ghost predicate Consistent(state: State, data: map<string, Value>)
  {
    && (state == AskTerm || state == AskRate || state == ShowResult ==>
          "amount" in data && data["amount"].IntValue?)
    && (state == AskRate || state == ShowResult ==>
          "term" in data && data["term"].IntValue?)
    && (state == ShowResult ==>
          && (forall k :: k in ResultKeys ==> k in data)
          && "payments" in data)
  }

  /** The rate handler raises exactly when the annuity formula divides by zero on the stored inputs. */
  ghost predicate RateFails(state: State, data: map<string, Value>, event: Event, parseFloat: string -> Option<real>)
    requires Consistent(state, data)
  {
    && state == AskRate && event.Text? && parseFloat(event.text).Some?
    && Calculator.MonthlyPayment(data["amount"].n as real, parseFloat(event.text).value, data["term"].n).Failure?
  }

  /** On the results screen both buttons find everything they read: neither raises. */
  lemma ResultsAvailable(data: map<string, Value>)
    requires Consistent(ShowResult, data)
    ensures FirstMissing(data, ResultKeys).None? && "payments" in data
  {
    forall i | 0 <= i < |ResultKeys| ensures ResultKeys[i] in data {
      assert ResultKeys[i] in ResultKeys;
    }
  }

  /**
   * A stored term of zero months, or a rate of zero, makes every rate answer raise: the
   * conversation stays at the rate question whatever number is typed.
   */
  lemma RateFailsOnZero(data: map<string, Value>, event: Event, parseFloat: string -> Option<real>)
    requires Consistent(AskRate, data) && event.Text? && parseFloat(event.text).Some?
    requires data["term"].n == 0 || parseFloat(event.text).value == 0.0
    ensures RateFails(AskRate, data, event, parseFloat)
  {
    Calculator.PaymentUndefined(data["amount"].n as real, parseFloat(event.text).value, data["term"].n);
  }

  /** A positive term and a positive rate always get through to the results. */
  lemma RateSucceedsOnPositive(data: map<string, Value>, event: Event, parseFloat: string -> Option<real>)
    requires Consistent(AskRate, data) && event.Text? && parseFloat(event.text).Some?
    requires data["term"].n >= 1 && parseFloat(event.text).value > 0.0
    ensures !RateFails(AskRate, data, event, parseFloat)
  {
    Calculator.PaymentDefined(data["amount"].n as real, parseFloat(event.text).value, data["term"].n);
  }

  /** One user's conversation: the current state and the per-user data the handlers share. */
  class Session {
    var state: State
    var userData: map<string, Value>

    ghost predicate Valid()
      reads this
    {
      Consistent(state, userData)
    }

    /** No conversation yet, nothing stored. */
    constructor ()
      ensures Valid() && state == State.End && userData == map[]
    {
      state := State.End;
      userData := map[];
    }

    /** `/start`: forget everything, remember who is asking, ask for the amount. */
    method Start(user: User) returns (outcome: Outcome)
      modifies this`userData
      ensures userData == map["user_data" := UserValue(user)]
      ensures outcome == Next(State.AskAmount)
    {
      userData := map[];
      userData := userData["user_data" := UserValue(user)];
      outcome := Next(State.AskAmount);
    }

    /** The amount: re-asked unless it is a digit string, otherwise stored as an integer. */
    method AskAmount(text: string) returns (outcome: Outcome)
      modifies this`userData
      ensures !BotText.IsDigits(text) ==> outcome == Next(State.AskAmount) && userData == old(userData)
      ensures BotText.IsDigits(text) ==>
        outcome == Next(State.AskTerm) && userData == old(userData)["amount" := IntValue(BotText.ParseNat(text))]
    {
      if !BotText.IsDigits(text) {
        return Next(State.AskAmount);
      }
      userData := userData["amount" := IntValue(BotText.ParseNat(text))];
      return Next(State.AskTerm);
    }

    /** The term in months: re-asked unless it is a digit string, otherwise stored as an integer. */
    method AskTerm(text: string) returns (outcome: Outcome)
      modifies this`userData
      ensures !BotText.IsDigits(text) ==> outcome == Next(State.AskTerm) && userData == old(userData)
      ensures BotText.IsDigits(text) ==>
        outcome == Next(State.AskRate) && userData == old(userData)["term" := IntValue(BotText.ParseNat(text))]
    {
      if !BotText.IsDigits(text) {
        return Next(State.AskTerm);
      }
      userData := userData["term" := IntValue(BotText.ParseNat(text))];
      return Next(State.AskRate);
    }

    /**
     * The rate, given as the result of parsing the text as a float (`None` when the text is not a
     * number): stored, then the payment and the schedule are computed from the stored amount and
     * term and stored as well.
     */
    method AskRate(parsed: Option<real>, round2: real -> real) returns (outcome: Outcome)
      modifies this`userData
      ensures (outcome, userData) == RateAnswer(old(userData), parsed, round2)
    {
      if parsed.None? {
        return Next(State.AskRate);
      }
      var rate := parsed.value;
      userData := userData["rate" := RealValue(rate)];
      ghost var withRate := userData;

      var inputs := LoanInputs(userData);
      if inputs.Failure? {
        return Raised(inputs.error);
      }
      var (amount, term) := inputs.value;

      var payment := Calculator.MonthlyPayment(amount, rate, term);
      if payment.Failure? {
        return Raised(ZeroDivisionError);
      }
      var monthlyPayment := payment.value;
      var details := Calculator.GetCreditDetails(amount, rate, term, round2);
      if details.Failure? {
        return Raised(ZeroDivisionError);
      }
      var CreditDetails(totalPayment, overpayment, payments) := details.value;

      userData := userData["monthly_payment" := RealValue(monthlyPayment)];
      userData := userData["total_payment" := RealValue(totalPayment)];
      userData := userData["overpayment" := RealValue(overpayment)];
      userData := userData["payments" := PaymentsValue(payments)];
      ghost var w := WithResults(withRate, amount, term, monthlyPayment, payments);
      assert w["payments"] == PaymentsValue(payments);
      assert w["overpayment"] == RealValue(overpayment);
      assert w["total_payment"] == RealValue(totalPayment);
      assert w["monthly_payment"] == RealValue(monthlyPayment);
      assert userData == WithResults(withRate, amount, term, monthlyPayment, payments);
      return Next(State.ShowResult);
    }

    /** The "new loan" button: forget everything and ask for the amount again. */
    method HandleRestart() returns (outcome: Outcome)
      modifies this`userData
      ensures userData == map[]
      ensures outcome == Next(State.AskAmount)
    {
      userData := map[];
      return Next(State.AskAmount);
    }

    /**
     * The "list of payments" button: the stored schedule, formatted by `formatTable`, escaped and
     * fenced as a code block. Reads the data only.
     */
    method HandleShowPayments(formatTable: Value -> string) returns (outcome: Outcome, message: Option<string>)
      ensures "payments" !in userData ==> outcome == Raised(KeyError("payments")) && message.None?
      ensures "payments" in userData ==>
        var table := formatTable(userData["payments"]);
        && outcome == Next(State.ShowResult)
        && message.Some?
        && |message.value| == |table| + BotText.SpecialCount(table) + 6
        && message.value[..3] == "```" == message.value[|message.value| - 3..]
        && BotText.Unescape(message.value[3..|message.value| - 3]) == table
    {
      if "payments" !in userData {
        return Raised(KeyError("payments")), None;
      }
      var table := formatTable(userData["payments"]);
      var escaped := BotText.EscapeMarkdown(table);
      BotText.EscapeLength(table);
      BotText.UnescapeEscape(table);
      var text := "```" + escaped + "```";
      assert text[3..|text| - 3] == escaped;
      return Next(State.ShowResult), Some(text);
    }

    /** The "back to results" button: reads the six stored results back. Reads the data only. */
    method HandleShowResults() returns (outcome: Outcome, shown: Option<seq<Value>>)
      ensures FirstMissing(userData, ResultKeys).Some? ==>
        outcome == Raised(KeyError(FirstMissing(userData, ResultKeys).value)) && shown.None?
      ensures FirstMissing(userData, ResultKeys).None? ==>
        outcome == Next(State.ShowResult) && shown == Some(Values(userData, ResultKeys))
    {
      var data := userData;
      FirstMissingResultKeys(data);
      if "amount" !in data { return Raised(KeyError("amount")), None; }
      if "term" !in data { return Raised(KeyError("term")), None; }
      if "rate" !in data { return Raised(KeyError("rate")), None; }
      if "monthly_payment" !in data { return Raised(KeyError("monthly_payment")), None; }
      if "total_payment" !in data { return Raised(KeyError("total_payment")), None; }
      if "overpayment" !in data { return Raised(KeyError("overpayment")), None; }
      var values := [data["amount"], data["term"], data["rate"],
                     data["monthly_payment"], data["total_payment"], data["overpayment"]];
      assert values == Values(data, ResultKeys) by {
        assert ResultKeys == ["amount", "term", "rate", "monthly_payment", "total_payment", "overpayment"];
        forall i | 0 <= i < 6 ensures values[i] == Values(data, ResultKeys)[i] {
        }
      }
      shown := Some(values);
      return Next(State.ShowResult), shown;
    }

    /** `/start` in the middle of a conversation ends it. */
    method Fallback() returns (outcome: Outcome)
      ensures outcome == Next(State.End)
    {
      return Next(State.End);
    }

    /**
     * Delivers one event: routes it to its handler by the current state, moves to the state the
     * handler returns, and keeps the state when the handler raises or nothing handles the event.
     */
    method Dispatch(event: Event, parseFloat: string -> Option<real>, round2: real -> real,
                    formatTable: Value -> string)
      returns (outcome: Option<Outcome>)
      requires Valid()
      modifies this
      ensures Valid()
      ensures outcome.None? <==> Route(old(state), event).None?
      ensures outcome.None? ==> userData == old(userData)
      ensures state == (if outcome.Some? && outcome.value.Next? then outcome.value.state else old(state))
      ensures outcome.Some? && outcome.value.Raised? <==> RateFails(old(state), old(userData), event, parseFloat)
      ensures outcome.Some? && outcome.value.Raised? ==> outcome.value.error == ZeroDivisionError
      ensures event.StartCommand? && old(state) == State.End ==>
        outcome == Some(Next(State.AskAmount)) && userData == map["user_data" := UserValue(event.user)]
      ensures event.StartCommand? && old(state) != State.End ==>
        outcome == Some(Next(State.End)) && userData == old(userData)
      ensures event.Text? && old(state) == State.AskAmount ==>
        if BotText.IsDigits(event.text)
        then outcome == Some(Next(State.AskTerm))
             && userData == old(userData)["amount" := IntValue(BotText.ParseNat(event.text))]
        else outcome == Some(Next(State.AskAmount)) && userData == old(userData)
      ensures event.Text? && old(state) == State.AskTerm ==>
        if BotText.IsDigits(event.text)
        then outcome == Some(Next(State.AskRate))
             && userData == old(userData)["term" := IntValue(BotText.ParseNat(event.text))]
        else outcome == Some(Next(State.AskTerm)) && userData == old(userData)
      ensures event.Text? && old(state) == State.AskRate ==>
        var answer := RateAnswer(old(userData), parseFloat(event.text), round2);
        outcome == Some(answer.0) && userData == answer.1
      ensures event == Press(Restart) && old(state) == State.ShowResult ==>
        outcome == Some(Next(State.AskAmount)) && userData == map[]
      ensures event.Press? && event.button != Restart && old(state) == State.ShowResult ==>
        outcome == Some(Next(State.ShowResult)) && userData == old(userData)
    {
      var handler := Route(state, event);
      if handler.None? {
        return None;
      }
      var result: Outcome;
      match handler.value {
        case StartHandler =>
          result := Start(event.user);
        case AskAmountHandler =>
          result := AskAmount(event.text);
        case AskTermHandler =>
          result := AskTerm(event.text);
        case AskRateHandler =>
          result := AskRate(parseFloat(event.text), round2);
        case RestartHandler =>
          result := HandleRestart();
        case ShowPaymentsHandler =>
          ResultsAvailable(userData);
          var message;
          result, message := HandleShowPayments(formatTable);
        case ShowResultsHandler =>
          ResultsAvailable(userData);
          var shown;
          result, shown := HandleShowResults();
        case FallbackHandler =>
          result := Fallback();
      }
      if result.Next? {
        state := result.state;
      }
      return Some(result);
    }
  }
}
