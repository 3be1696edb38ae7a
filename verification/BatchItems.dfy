/** The items a batch task expects to archive (app/services/archive_worker.py). */
module BatchItems {
  type Key = string

  datatype Status = NoStatus | Running | Queued | Failed | Archived | WaitingChildren

  /** One expected model: its task key, how often it has been enqueued, and what became of it. */
  datatype Expected = Expected(key: Key, attempts: int, status: Status, lastFailure: string)

  /** At most the first 400 characters. */
  function Clip(message: string): (clipped: string)
    ensures clipped <= message && |clipped| <= 400 && (clipped == message || |clipped| == 400)
  {
    if |message| <= 400 then message else message[..400]
  }

  /** The stored form read back: at least one attempt, a clipped message. */
  function Normalized(item: Expected): (r: Expected)
    ensures r.key == item.key && r.status == item.status && r.attempts >= 1
    ensures item.attempts >= 1 ==> r.attempts == item.attempts
    ensures r.attempts > 1 ==> r.attempts == item.attempts
    ensures r.lastFailure <= item.lastFailure && |r.lastFailure| <= 400
    ensures item.attempts >= 1 && |item.lastFailure| <= 400 ==> r == item
  {
    item.(attempts := if item.attempts < 1 then 1 else item.attempts, lastFailure := Clip(item.lastFailure))
  }

  function NormalizedAll(items: seq<Expected>): (r: seq<Expected>)
    ensures |r| == |items| && forall i | 0 <= i < |items| :: r[i] == Normalized(items[i])
  {
    seq(|items|, i requires 0 <= i < |items| => Normalized(items[i]))
  }
}
