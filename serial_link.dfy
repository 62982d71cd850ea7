/**
 * The Arduino connection every detector keeps in `self.arduino`: either `None`
 * (the port could not be opened) or a serial object that is open until cleanup
 * closes it. `written` is the stream of single ASCII bytes handed to `write`.
 *
 * A write that raises is caught in `send_to_arduino` and only printed; the
 * connection is neither dropped nor reopened, so the program's state after a
 * failed write is the same as after a good one.
 */
module SerialLink {

  class Link {
    /** `self.arduino` is not None. */
    var present: bool
    /** `self.arduino.is_open`. */
    var isOpen: bool
    /** Bytes written to the port, in order (one byte per command, no terminator). */
    var written: seq<char>

    /** `self.arduino and self.arduino.is_open`: a send goes out. */
    predicate Live()
      reads this
    {
      present && isOpen
    }

    /** `self.arduino = None` before `setup_arduino` runs. */
    constructor ()
      ensures !present && !isOpen && written == []
    {
      present, isOpen, written := false, false, [];
    }

    /**
     * `setup_arduino`: `portOpened` says whether `serial.Serial(port, baud_rate)`
     * succeeded. On success the detector's greeting byte is sent once; on
     * failure the link stays absent and nothing is written.
     */
    method Connect(portOpened: bool, greeting: char)
      modifies this
      ensures present == portOpened && isOpen == portOpened
      ensures written == old(written) + (if portOpened then [greeting] else [])
    {
      if portOpened {
        present, isOpen := true, true;
        Send(greeting);
      } else {
        present, isOpen := false, false;
      }
    }

    /** `send_to_arduino`: exactly one byte when the port is present and open, nothing otherwise. */
    method Send(signal: char)
      modifies this
      ensures present == old(present) && isOpen == old(isOpen)
      ensures written == old(written) + (if old(Live()) then [signal] else [])
    {
      if present && isOpen {
        written := written + [signal];
      }
    }

    /** The Arduino part of `cleanup`: if a port exists, send the final byte and close it. */
    method Shutdown(farewell: char)
      modifies this
      ensures present == old(present) && isOpen == (old(isOpen) && !present)
      ensures written == old(written) + (if old(Live()) then [farewell] else [])
    {
      if present {
        Send(farewell);
        isOpen := false;
      }
    }
  }
}
