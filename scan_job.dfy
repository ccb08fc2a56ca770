// A scan job (services/network_scanner.py, class ScanJob): its lifecycle fields are
// updated in place by the mark_* methods while the scan runs. Clock readings are
// passed in as `now` (seconds).
module ScanJobs {
  import opened Wrappers
  import opened ScanTypes

  /** `ScanJob.to_dict()`. */
  datatype JobSnapshot = JobSnapshot(
    id: string,
    status: string,
    progress: int,
    options: ScanOptions,
    startTime: Option<int>,
    endTime: Option<int>,
    errorMessage: Option<string>,
    deviceCount: nat,
    connectionCount: nat,
    scanTime: int)

  const DefaultStaleTimeout: int := 1800

  class ScanJob {
    const id: string
    var options: ScanOptions
    var status: ScanStatus
    var progress: int
    var result: ScanResult
    var startTime: Option<int>
    var endTime: Option<int>
    var errorMessage: Option<string>
    var partialResults: map<string, PartialData>

    constructor (id: string, options: ScanOptions)
      ensures this.id == id && this.options == options
      ensures status == Ready && progress == 0 && result == EmptyResult
      ensures startTime == None && endTime == None && errorMessage == None && partialResults == map[]
    {
      this.id := id;
      this.options := options;
      status := Ready;
      progress := 0;
      result := EmptyResult;
      startTime := None;
      endTime := None;
      errorMessage := None;
      partialResults := map[];
    }

    method MarkStarted(now: int)
      modifies this
      ensures startTime == Some(now) && status == Running && progress == 0
      ensures options == old(options) && result == old(result) && endTime == old(endTime)
      ensures errorMessage == old(errorMessage) && partialResults == old(partialResults)
    {
      startTime := Some(now);
      status := Running;
      progress := 0;
    }

    /** Completion is the only transition that reaches progress 100; the result's counts are
        the sizes of its device table and connection list. */
    method MarkCompleted(now: int)
      requires startTime.Some?
      modifies this
      ensures endTime == Some(now) && status == Completed && progress == 100
      ensures result == old(result).(scanTime := now - old(startTime).value,
                                     deviceCount := |old(result).devices.entries|,
                                     connectionCount := |old(result).connections|)
      ensures options == old(options) && startTime == old(startTime)
      ensures errorMessage == old(errorMessage) && partialResults == old(partialResults)
    {
      endTime := Some(now);
      status := Completed;
      progress := 100;
      result := result.(scanTime := now - startTime.value,
                        deviceCount := |result.devices.entries|,
                        connectionCount := |result.connections|);
    }

    method MarkFailed(message: string, now: int)
      modifies this
      ensures endTime == Some(now) && status == Failed && errorMessage == Some(message)
      ensures result == if old(startTime).Some? then old(result).(scanTime := now - old(startTime).value) else old(result)
      ensures options == old(options) && startTime == old(startTime) && progress == old(progress)
      ensures partialResults == old(partialResults)
    {
      endTime := Some(now);
      status := Failed;
      errorMessage := Some(message);
      if startTime.Some? {
        result := result.(scanTime := now - startTime.value);
      }
    }

    method MarkCancelled(now: int)
      modifies this
      ensures endTime == Some(now) && status == Cancelled
      ensures result == if old(startTime).Some? then old(result).(scanTime := now - old(startTime).value) else old(result)
      ensures options == old(options) && startTime == old(startTime) && progress == old(progress)
      ensures errorMessage == old(errorMessage) && partialResults == old(partialResults)
    {
      endTime := Some(now);
      status := Cancelled;
      if startTime.Some? {
        result := result.(scanTime := now - startTime.value);
      }
    }

    /** Progress reported while running is capped at 99; 100 is reserved for completion. */
    method UpdateProgress(p: int)
      modifies this`progress
      ensures progress == (if p < 99 then p else 99)
      ensures progress <= 99
    {
      progress := if p < 99 then p else 99;
    }

    method SavePartialResult(key: string, data: PartialData)
      modifies this`partialResults
      ensures partialResults == old(partialResults)[key := data]
    {
      partialResults := partialResults[key := data];
    }

    /** A job is stale when it is running and has run longer than `timeout` seconds
        (or claims to run without a start time). */
    function IsStale(now: int, timeout: int): (r: bool)
      reads this
      ensures r ==> status == Running
      ensures status == Running && startTime.None? ==> r
    {
      if status != Running then false
      else if startTime.None? then true
      else now - startTime.value > timeout
    }

    function Snapshot(): (s: JobSnapshot)
      reads this
      ensures s.id == id && s.status == StatusName(status) && s.progress == progress
      ensures s.deviceCount == result.deviceCount && s.connectionCount == result.connectionCount
    {
      JobSnapshot(id, StatusName(status), progress, options, startTime, endTime, errorMessage,
                  result.deviceCount, result.connectionCount, result.scanTime)
    }
  }

  /** Staleness only grows with time and with a shorter threshold. */
  lemma StaleMonotone(job: ScanJob, now: int, later: int, timeout: int, shorter: int)
    requires job.IsStale(now, timeout) && now <= later && shorter <= timeout
    ensures job.IsStale(later, shorter)
  {
  }
}
