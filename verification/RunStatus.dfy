/** One session's latched lifecycle facts: what the engine thread writes at the start, at
    the lifecycle hook and at the end of a run, and what a status poll copies out. */
module RunStatus {

  datatype RunReason = Pending | Completed | Cancelled | Failed

  datatype RunRecord = RunRecord(session: nat, initialized: bool, reason: RunReason, runCode: int,
                                 deviceError: int, inputKind: int, inputCode: int)

  const UNSTARTED := RunRecord(0, false, Pending, 0, 0, 0, 0)

  function Began(session: nat): RunRecord {
    UNSTARTED.(session := session)
  }

  function FinishReason(code: int, cancelled: bool): RunReason {
    if cancelled then Cancelled else if code == 0 then Completed else Failed
  }

  function Finished(r: RunRecord, code: int, cancelled: bool, deviceError: int): RunRecord {
    r.(runCode := code, deviceError := deviceError, reason := FinishReason(code, cancelled))
  }

  function Collected(r: RunRecord, code: int, cancelled: bool, deviceError: int, inputKind: int, inputCode: int): RunRecord {
    Finished(r, code, cancelled, deviceError).(inputKind := inputKind, inputCode := inputCode)
  }

  class RunStatus {
    var session: nat
    var initialized: bool
    var reason: RunReason
    var runCode: int
    var deviceError: int
    var inputKind: int
    var inputCode: int

    function Record(): RunRecord
      reads this
    {
      RunRecord(session, initialized, reason, runCode, deviceError, inputKind, inputCode)
    }

    constructor ()
      ensures Record() == UNSTARTED
    {
      session, initialized, reason := 0, false, Pending;
      runCode, deviceError, inputKind, inputCode := 0, 0, 0, 0;
    }

    method Begin(id: nat)
      modifies this
      ensures Record() == Began(id)
    {
      session, initialized, reason := 0, false, Pending;
      runCode, deviceError, inputKind, inputCode := 0, 0, 0, 0;
      session := id;
    }

    method MarkInitialized()
      modifies this
      ensures Record() == old(Record()).(initialized := true)
    {
      initialized := true;
    }

    method Finish(code: int, cancelled: bool, nativeDeviceError: int)
      modifies this
      ensures Record() == Finished(old(Record()), code, cancelled, nativeDeviceError)
    {
      runCode := code;
      deviceError := nativeDeviceError;
      reason := if cancelled then Cancelled else if code == 0 then Completed else Failed;
    }

    method Collect(code: int, cancelled: bool, lastOpenError: int, failureKind: int, failureCode: int)
      modifies this
      ensures Record() == Collected(old(Record()), code, cancelled, lastOpenError, failureKind, failureCode)
    {
      Finish(code, cancelled, lastOpenError);
      inputKind := failureKind;
      inputCode := failureCode;
    }
  }
}
