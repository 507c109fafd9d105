/** The Love Tap page: a sender taps ten times to mint a share link; a receiver opening a link
    sees its message, or a "faded" notice once the link is more than seven days old.
    Query parsing, storage, the clipboard and id generation are parameters. */
module LoveTap {

  const TAPS_FOR_LINK: nat := 10
  const DAY_MS: int := 24 * 60 * 60 * 1000
  const EXPIRY_MS: int := 7 * DAY_MS

  datatype Option<T> = None | Some(value: T)

  datatype Role = Home | Sender | Receiver

  /** The sender's record: taps so far and the link minted on the tenth tap. */
  datatype SenderData = SenderData(count: nat, linkId: Option<string>)

  /** What `copyLink` writes to the clipboard: the link id and the timestamp put in the URL. */
  datatype SharedLink = SharedLink(linkId: string, ts: int)

  /** The `handleTap` updater; `freshId` is the id the tenth tap generates. */
  function Tap(prev: SenderData, freshId: string): (next: SenderData)
    ensures next.count == prev.count + 1
    ensures next.count == TAPS_FOR_LINK ==> next.linkId == Some(freshId)
    ensures next.count != TAPS_FOR_LINK ==> next.linkId == prev.linkId
  {
    var newCount := prev.count + 1;
    if newCount == TAPS_FOR_LINK then SenderData(newCount, Some(freshId))
    else prev.(count := newCount)
  }

  /** The record after tapping once per id in `ids`, in order. */
  function Taps(start: SenderData, ids: seq<string>): SenderData {
    if ids == [] then start else Tap(Taps(start, ids[..|ids| - 1]), ids[|ids| - 1])
  }

  const Fresh: SenderData := SenderData(0, None)

  /** From a reset record, `n` taps leave the count at `n`; the link exists exactly from the
      tenth tap on, and it is the one minted by the tenth tap. */
  lemma {:induction false} TapsFromReset(ids: seq<string>)
    ensures Taps(Fresh, ids).count == |ids|
    ensures Taps(Fresh, ids).linkId == if |ids| >= TAPS_FOR_LINK then Some(ids[TAPS_FOR_LINK - 1]) else None
  {
    if ids != [] {
      var front := ids[..|ids| - 1];
      TapsFromReset(front);
      if |ids| > TAPS_FOR_LINK {
        assert front[TAPS_FOR_LINK - 1] == ids[TAPS_FOR_LINK - 1];
      }
    }
  }

  /** A link created at `createdTime` has faded at `now` once more than seven days have passed;
      one exactly seven days old has not. */
  predicate IsExpired(createdTime: int, now: int) {
    now - createdTime > EXPIRY_MS
  }

  lemma ExpiryBoundary(createdTime: int, now: int)
    ensures IsExpired(createdTime, now) <==> now >= createdTime + 604800001
    ensures !IsExpired(createdTime, createdTime + 7 * 24 * 60 * 60 * 1000)
  {
  }

  /** The page's state. */
  class LoveTapPage {
    var role: Role
    var sender: SenderData
    var receiverMessage: Option<string>
    var isExpired: bool
    var copiedFeedback: bool

    constructor ()
      ensures role == Home && sender == Fresh && receiverMessage == None
      ensures !isExpired && !copiedFeedback
    {
      role, sender, receiverMessage := Home, Fresh, None;
      isExpired, copiedFeedback := false, false;
    }

    /** The mount effect. `link` and `ts` are the query parameters, "" when absent (both are
        falsy); `createdTime` is `parseInt(ts)`, None for NaN, which is never expired;
        `stored` is the message saved under the link id, if any. */
    method OnMount(link: string, ts: string, createdTime: Option<int>, now: int, stored: Option<string>)
      modifies this
      ensures link == "" || ts == "" ==> unchanged(this)
      ensures link != "" && ts != "" ==>
        && role == Receiver
        && isExpired == (old(isExpired) || (createdTime.Some? && IsExpired(createdTime.value, now)))
        && receiverMessage == (if !(createdTime.Some? && IsExpired(createdTime.value, now)) && stored.Some?
                               then stored else old(receiverMessage))
        && sender == old(sender) && copiedFeedback == old(copiedFeedback)
    {
      if link != "" && ts != "" {
        if createdTime.Some? && IsExpired(createdTime.value, now) {
          isExpired := true;
          role := Receiver;
        } else {
          role := Receiver;
          if stored.Some? {
            receiverMessage := stored;
          }
        }
      }
    }

    /** `handleTap`. */
    method HandleTap(freshId: string)
      modifies this`sender
      ensures sender == Tap(old(sender), freshId)
    {
      sender := Tap(sender, freshId);
    }

    /** A link id the page treats as present: JavaScript's truthiness test rejects both `null`
        and the empty string. */
    predicate HasLink()
      reads this
    {
      sender.linkId.Some? && sender.linkId.value != ""
    }

    /** `copyLink`: nothing without a (non-empty) link; otherwise the link with the current time
        goes to the clipboard and the "Copied!" feedback shows. */
    method CopyLink(now: int) returns (written: Option<SharedLink>)
      modifies this`copiedFeedback
      ensures !HasLink() ==> written == None && copiedFeedback == old(copiedFeedback)
      ensures HasLink() ==> written == Some(SharedLink(sender.linkId.value, now)) && copiedFeedback
    {
      written := None;
      if HasLink() {
        written := Some(SharedLink(sender.linkId.value, now));
        copiedFeedback := true;
      }
    }

    /** `resetSender` ("Send Another"). */
    method ResetSender()
      modifies this`sender
      ensures sender == Fresh
    {
      sender := Fresh;
    }

    /** "Send Love" on the home screen. */
    method StartSending()
      modifies this`role
      ensures role == Sender
    {
      role := Sender;
    }

    /** "Back" on the sender screen: home, with the sender record reset. */
    method Back()
      modifies this`role, this`sender
      ensures role == Home && sender == Fresh
    {
      role := Home;
      ResetSender();
    }
  }
}
