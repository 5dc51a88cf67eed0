/** The stream status shown next to the player: a pure classification of the
    current instant against the launch instant, and the text and styling each
    status renders as. Times are integer milliseconds since the epoch. */
module Status {
  import opened Optional
  import opened Time

  datatype StreamStatus = Live | StartingSoon | Offline

  /** checkStreamStatus: live from the launch up to one hour after it (both
      ends included), starting soon during the hour before it, offline
      otherwise. Each status is characterised on its own, so together the
      three clauses say the windows partition the timeline. */
  function StatusAt(now: int, launch: int): (s: StreamStatus)
    ensures s == Live <==> launch <= now <= launch + HOUR_MS
    ensures s == StartingSoon <==> launch - HOUR_MS <= now < launch
    ensures s == Offline <==> now < launch - HOUR_MS || launch + HOUR_MS < now
  {
    if now >= launch && now <= launch + HOUR_MS then Live
    else if now >= launch - HOUR_MS && now < launch then StartingSoon
    else Offline
  }

  /** The position of an instant on the timeline around the launch:
      0 before the window, 1 in the hour before, 2 in the live hour, 3 after. */
  function Phase(now: int, launch: int): (p: nat)
    ensures p <= 3
  {
    if now < launch - HOUR_MS then 0
    else if now < launch then 1
    else if now <= launch + HOUR_MS then 2
    else 3
  }

  /** The status only moves forward along the timeline: offline, starting
      soon, live, offline again, never back. */
  lemma {:induction false} StatusFollowsPhase(now: int, later: int, launch: int)
    requires now <= later
    ensures Phase(now, launch) <= Phase(later, launch)
    ensures StatusAt(now, launch) == (match Phase(now, launch)
                                        case 1 => StartingSoon
                                        case 2 => Live
                                        case _ => Offline)
  {
  }

  /** Boundary instants belong to the window that starts there; the instant
      one hour after the launch is still live. */
  lemma BoundaryInstants(launch: int)
    ensures StatusAt(launch - HOUR_MS - 1, launch) == Offline
    ensures StatusAt(launch - HOUR_MS, launch) == StartingSoon
    ensures StatusAt(launch - 1, launch) == StartingSoon
    ensures StatusAt(launch, launch) == Live
    ensures StatusAt(launch + HOUR_MS, launch) == Live
    ensures StatusAt(launch + HOUR_MS + 1, launch) == Offline
  {
  }

  /** The text setStreamStatus writes into the status label. */
  function Label(s: StreamStatus): (r: string)
    ensures |r| > 0
  {
    match s
    case Live => "\U{1F534} LIVE NOW"
    case StartingSoon => "Stream Starting Soon"
    case Offline => "Stream Offline"
  }

  predicate IsHexDigit(c: char)
  {
    '0' <= c <= '9' || 'a' <= c <= 'f'
  }

  /** The colour setStreamStatus gives the status label: a six-digit CSS hex
      colour. */
  function Color(s: StreamStatus): (r: string)
    ensures |r| == 7 && r[0] == '#' && forall i :: 1 <= i < 7 ==> IsHexDigit(r[i])
  {
    match s
    case Live => "#4ade80"
    case StartingSoon => "#f59e0b"
    case Offline => "#a0a0b8"
  }

  /** Reads the status back from the label, the inverse of Label. */
  function StatusOfLabel(text: string): (r: Option<StreamStatus>)
    ensures r.Some? ==> Label(r.value) == text
  {
    if text == Label(Live) then Some(Live)
    else if text == Label(StartingSoon) then Some(StartingSoon)
    else if text == Label(Offline) then Some(Offline)
    else None
  }

  /** The rendered label identifies the status: distinct statuses never show
      the same text, and only the live one lights the indicator. */
  lemma LabelRoundTrip(s: StreamStatus)
    ensures StatusOfLabel(Label(s)) == Some(s)
  {
  }
}
