/**
 The regions under `socket_mutex_` as methods on the client's fields.

 `View` is the part of the machine's state in SocketOwnership.dfy that the mutex guards.  `Enter` is the
 first region of send_, `CloseAfterResponse` the one of handle_request, `Leave` the scope exit of send_
 and `Stop` the region of stop; each leaves the view that the machine's step gives.

 The assertion of close_socket is a demand on the caller, and so is a request in flight of the leaving
 thread; the machine's invariant gives both.  The other assertions of the source are proved here.
 */
module ClientSocketObject {
  import opened Basics
  import opened SocketOwnership
  import opened SocketOwnershipSafety

  class ClientSocket {
    var inFlight: nat
    var from: Option<ThreadId>
    var closeWhenDone: bool
    var isOpen: bool

    ghost function View(): Shared
      reads this
    {
      Shared(inFlight, from, closeWhenDone, isOpen)
    }

    constructor ()
      ensures View() == Shared(0, None, false, false)
    {
      inFlight, from, closeWhenDone, isOpen := 0, None, false, false;
    }

    /** close_socket, with its assertion as the demand on the caller. */
    method CloseSocket(t: ThreadId)
      requires CloseAssertion(Closing(t, inFlight, from))
      modifies this`isOpen
      ensures !isOpen
    {
      isOpen := false;
    }

    /** The first region of `send_`, which returns `ret` at once if the request has not started. */
    method Enter(t: ThreadId, alive: bool, link: Link) returns (started: bool, ret: bool)
      requires CloseAssertion(Closing(t, inFlight, from))
      modifies this
      ensures started == Starts(old(View()), alive, link)
      ensures !started ==> ret == (link.Refused? && link.byProxy)
      ensures View() == Entered(old(View()), t, alive, link)
    {
      closeWhenDone := false;
      var isAlive := false;
      if isOpen {
        isAlive := alive;
        if !isAlive {
          CloseSocket(t);
        }
      }
      if !isAlive {
        if link.NoSocket? {
          return false, false;
        }
        isOpen := true;
        if link.Refused? {
          CloseSocket(t);
          return false, link.byProxy;
        }
      }
      if inFlight > 1 {
        assert from == Some(t);
      }
      inFlight := inFlight + 1;
      from := Some(t);
      return true, false;
    }

    /** The region of `handle_request` that closes the socket when the response says so. */
    method CloseAfterResponse(t: ThreadId)
      requires CloseAssertion(Closing(t, inFlight, from))
      modifies this`isOpen
      ensures View() == old(View()).(isOpen := false)
      ensures forall s: State :: old(View()) == s.shared && Enabled(s, TestConnection(t, true)) ==>
                View() == Apply(s, TestConnection(t, true)).shared
    {
      CloseSocket(t);
    }

    /** The scope exit of `send_`. */
    method Leave(t: ThreadId, closeConnection: bool, ret: bool)
      requires inFlight > 0 && from == Some(t)
      modifies this
      ensures View() == Left(old(View()), closeConnection, ret)
    {
      inFlight := inFlight - 1;
      if inFlight <= 0 {
        assert inFlight == 0;
        from := None;
      }
      if closeWhenDone || closeConnection || !ret {
        CloseSocket(t);
      }
    }

    method Stop(t: ThreadId)
      modifies this
      ensures View() == Stopped(old(View()))
    {
      if inFlight > 0 {
        closeWhenDone := true;
        return;
      }
      CloseSocket(t);
    }
  }
}
