/** The retry window of a rotated refresh token. A digest is modelled by the text
    it covers, and a sealed envelope by its content, so sealing and opening are
    inverse; opening may still fail, which callers pass in as `opens`. */
module RefreshReplay {
  import opened Base

  datatype Replay<+H, +P> = Replay(previousHash: H, fingerprint: string, rotatedAt: int, sealed: P)

  datatype Verdict = Unknown | OutsideWindow | UnverifiedClient | Retry

  function ReplayVerdict<H(==), P>(replay: Option<Replay<H, P>>, previousHash: H, fingerprint: Option<string>, now: int, graceSeconds: int): Verdict {
    if replay.None? || replay.value.previousHash != previousHash then Unknown
    else if !(now >= replay.value.rotatedAt && now - replay.value.rotatedAt <= graceSeconds) then OutsideWindow
    else if fingerprint.None? || replay.value.fingerprint != fingerprint.value then UnverifiedClient
    else Retry
  }
}
