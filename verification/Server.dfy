/** The daemon's request handlers run one at a time (`server.rs`): the call table, the id counter and
    the output channel as they are changed in place, with each call object shared by reference. */
module Servers {
  import opened Wrappers
  import opened Streams
  import opened Calls
  import opened CallEngine

  class Server {
    var calls: map<CallId, Call>
    var nextCall: CallId
    var out: seq<Message>

    /** Every listed id was handed out by the counter. */
    ghost predicate Valid()
      reads this
    {
      forall c: CallId :: c in calls ==> c < nextCall
    }

    ghost function Reach(id: CallId): set<object>
      reads this, set c | c in calls.Values
    {
      if id in calls then {calls[id]} + calls[id].StreamObject() else {}
    }

    constructor ()
      ensures Valid() && calls == map[] && nextCall == 1 && out == []
    {
      calls, nextCall, out := map[], 1, [];
    }

    method Send(m: Message)
      modifies this`out
      ensures out == old(out) + [m]
    {
      out := out + [m];
    }

    /** The id answered is one the table never held; the answer is sent before the call is handed
        to the worker, as the last thing on the channel. */
    method Execute(req: ReqId, connected: bool) returns (call: Call?)
      requires Valid()
      modifies this
      ensures Valid()
      ensures !connected ==> call == null && calls == old(calls) && nextCall == old(nextCall)
                             && out == old(out) + [Refused(req, "no such connection")]
      ensures connected ==>
                && call != null && fresh(call) && call.View() == NEW_CALL
                && old(nextCall) !in old(calls) && calls == old(calls)[old(nextCall) := call]
                && nextCall == old(nextCall) + 1 && out == old(out) + [Started(req, old(nextCall))]
    {
      if !connected {
        Send(Refused(req, "no such connection"));
        return null;
      }
      var id := nextCall;
      nextCall := nextCall + 1;
      call := new Call();
      calls := calls[id := call];
      Send(Started(req, id));
    }

    /** The worker's closing section: the call is closed and its notice sent under one lock. */
    method Finish(id: CallId, call: Call, outcome: Result<StreamRef>, ghost value: Outcome)
      requires Valid()
      requires outcome.Err? ==> value == Err(outcome.error)
      requires outcome.Ok? && outcome.value.BufferedRef? ==> value == Ok(outcome.value.b.View())
      requires outcome.Ok? && outcome.value.CursorRef? ==> value == Ok(outcome.value.m.View())
      modifies this`out, call
      ensures Valid() && call.View() == CloseSection(old(call.View()), value)
      ensures out == old(out) + [Notice(id, call.View())]
    {
      call.Close(outcome, value);
      Send(State(id, call.status, if call.status == Failed then call.error else None,
                 if call.status == Done then call.affected else None));
    }

    method Page(req: ReqId, id: CallId, from: nat, n: nat)
      requires Valid() && (id in calls ==> Consistent(calls[id].View()))
      modifies this`out, Reach(id)
      ensures Valid()
      ensures id !in calls ==> out == old(out) + [Refused(req, "no such call")]
      ensures id in calls ==>
                && calls[id].View() == ReadPage(old(calls[id].View()), from, n).0
                && out == old(out) + [var r := ReadPage(old(calls[id].View()), from, n).1;
                                      if r.Ok? then Paged(req, r.value) else Refused(req, r.error)]
    {
      if id !in calls {
        Send(Refused(req, "no such call"));
        return;
      }
      var reply := calls[id].Page(from, n);
      match reply {
        case Ok(page) => Send(Paged(req, page));
        case Err(e) => Send(Refused(req, e));
      }
    }

    /** `fires` is what firing the driver's handle gives, if one is taken. */
    method Cancel(req: ReqId, id: CallId, fires: Result<()>) returns (fired: bool)
      requires Valid()
      modifies this`out, Reach(id)
      ensures Valid()
      ensures id !in calls ==> !fired && out == old(out) + [Refused(req, "no such call")]
      ensures id in calls ==>
                && (calls[id].View(), fired) == CancelSection(old(calls[id].View()))
                && out == old(out) + [if fired && fires.Err? then Refused(req, fires.error) else Acked(req)]
    {
      if id !in calls {
        Send(Refused(req, "no such call"));
        return false;
      }
      fired := calls[id].Cancel();
      if fired && fires.Err? {
        Send(Refused(req, fires.error));
      } else {
        Send(Acked(req));
      }
    }

    method Release(req: ReqId, id: CallId)
      requires Valid()
      modifies this
      ensures Valid()
      ensures calls == old(calls) - {id} && nextCall == old(nextCall) && out == old(out) + [Acked(req)]
    {
      calls := calls - {id};
      Send(Acked(req));
    }
  }
}
