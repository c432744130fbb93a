/** The rich-presence manager (rpc.py): a handle on an external presence client that may be present
    or absent, the last error message, and a start timestamp fixed at construction. The client is
    external: each call it would make is given as an `Outcome`, and the calls made are recorded. */
module Presence {
  import opened Wrappers
  import opened Json

  /** How one call into the presence client ends. */
  datatype Outcome = Succeeds | Fails(message: string)

  /** The keyword arguments of one presence update. */
  datatype Activity = Activity(details: string, state: string, start: int, largeImage: Value, largeText: string)

  /** A call made into the presence client. */
  datatype ClientCall = Connect | Update(activity: Activity) | Clear | Close

  /** The text lines of the activity: "<title> — <artist>" and "👥 <listeners> auditeurs". */
  function Details(title: Value, artist: Value): string {
    Show(title) + " — " + Show(artist)
  }

  function ListenerLine(listeners: Value): string {
    "👥 " + Show(listeners) + " auditeurs"
  }

  class Manager {
    const clientId: string
    const appName: string
    const startTs: int
    /** Whether the client handle is present (`self.rpc is not None`). */
    var connected: bool
    var lastError: Option<string>
    /** The calls made into the presence client so far. */
    ghost var calls: seq<ClientCall>

    /** The handle is present only while no error is recorded, and every update sent carries
        the start timestamp fixed at construction. */
    ghost predicate Valid()
      reads this
    {
      (connected ==> lastError == None) && StartFixed()
    }

    ghost predicate StartFixed()
      reads this
    {
      forall i :: 0 <= i < |calls| && calls[i].Update? ==> calls[i].activity.start == startTs
    }

    /** `DiscordRPCManager(client_id, app_name)`; `now` is the clock reading taken once. */
    constructor (clientId: string, appName: string, now: int)
      ensures Valid()
      ensures this.clientId == clientId && this.appName == appName && startTs == now
      ensures !connected && lastError == None && calls == []
    {
      this.clientId := clientId;
      this.appName := appName;
      startTs := now;
      connected := false;
      lastError := None;
      calls := [];
    }

    /** `enabled()`: whether the handle is present. */
    predicate Enabled()
      reads this
    {
      connected
    }

    /** `connect()`: on success the handle is present, no error is recorded and the answer is true;
        on failure the handle is dropped, the message is recorded and the answer is false. */
    method Connect(attempt: Outcome) returns (ok: bool)
      requires StartFixed()
      modifies this
      ensures Valid()
      ensures ok <==> attempt.Succeeds?
      ensures Enabled() == ok
      ensures lastError == (if ok then None else Some(attempt.message))
      ensures calls == old(calls) + [ClientCall.Connect]
    {
      calls := calls + [ClientCall.Connect];
      match attempt
      case Succeeds =>
        connected := true;
        lastError := None;
        ok := true;
      case Fails(message) =>
        connected := false;
        lastError := Some(message);
        ok := false;
    }

    /** `update(title, artist, listeners, large_image)`. Disabled, it changes nothing. Enabled, it sends
        the activity; when that fails it reconnects exactly once and ends in the state the reconnect
        leaves, so a successful reconnect clears the error again. */
    method Update(title: Value, artist: Value, listeners: Value, largeImage: Value, attempt: Outcome, reconnect: Outcome)
      requires Valid()
      modifies this
      ensures Valid()
      ensures !old(connected) ==> connected == old(connected) && lastError == old(lastError) && calls == old(calls)
      ensures old(connected) && attempt.Succeeds? ==>
        connected && lastError == old(lastError) &&
        calls == old(calls) + [ClientCall.Update(Activity(Details(title, artist), ListenerLine(listeners), startTs, largeImage, appName))]
      ensures old(connected) && attempt.Fails? ==>
        connected == reconnect.Succeeds? &&
        lastError == (if reconnect.Succeeds? then None else Some(reconnect.message)) &&
        calls == old(calls) + [ClientCall.Update(Activity(Details(title, artist), ListenerLine(listeners), startTs, largeImage, appName)), ClientCall.Connect]
    {
      if !connected {
        return;
      }
      var activity := Activity(Details(title, artist), ListenerLine(listeners), startTs, largeImage, appName);
      calls := calls + [ClientCall.Update(activity)];
      if attempt.Fails? {
        lastError := Some(attempt.message);
        var _ := Connect(reconnect);
      }
    }

    /** `clear_close()`: a present handle is cleared and, if clearing succeeded, closed; failures are
        swallowed, and the handle always ends absent. `clear` is the outcome of the clear call; the
        close call is the last step inside the `try`, so how it ends changes nothing. */
    method ClearClose(clear: Outcome)
      requires Valid()
      modifies this
      ensures Valid()
      ensures !Enabled()
      ensures lastError == old(lastError)
      ensures calls == old(calls) + (if !old(connected) then [] else if clear.Fails? then [ClientCall.Clear] else [ClientCall.Clear, ClientCall.Close])
    {
      if connected {
        calls := calls + [ClientCall.Clear];
        if clear.Succeeds? {
          calls := calls + [ClientCall.Close];
        }
      }
      connected := false;
    }
  }
}
