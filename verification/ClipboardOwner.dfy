/**
 The clipboard bridge as the program holds it: closure variables that refreshes and events
 change.  Every method leaves the state that the corresponding step computes, keeps the cached
 image valid and current, and claims nothing without warrant.
 */
module ClipboardOwner {
  import opened Common
  import opened ClipboardBridge

  class Owner {
    var connected: bool
    var stopped: bool
    var ownsClipboard: bool
    var image: Option<Image>
    var currentHash: Option<Image>
    var suppressedHash: Option<Image>
    var localImageChangedAt: nat
    var claimAttempts: nat
    var log: seq<Act>

    ghost function View(): Bridge
      reads this
    {
      Bridge(connected, stopped, ownsClipboard,
          Cache(image, currentHash, suppressedHash, localImageChangedAt, claimAttempts), log)
    }

    ghost predicate Valid()
      reads this
    {
      Sound(View())
    }

    constructor ()
      ensures View() == ClipboardBridge.Start() && Valid()
    {
      connected, stopped, ownsClipboard := true, false, false;
      image, currentHash, suppressedHash := None, None, None;
      localImageChangedAt, claimAttempts, log := 0, 0, [];
    }

    method Release()
      modifies this`ownsClipboard, this`log
      ensures View() == ClipboardBridge.Release(old(View()))
      ensures connected ==> !ownsClipboard
    {
      if !connected || !ownsClipboard { return; }
      log := log + [Released];
      ownsClipboard := false;
    }

    /** The bridge claims a valid image exactly if it is connected and not the owner yet, the
        image is not suppressed and the server takes the claim. */
    method ClaimImage(nextImage: Image, throws: bool) returns (claimed: bool)
      requires Valid() && ValidPng(nextImage)
      modifies this
      ensures View() == Claim(old(View()), nextImage, throws)
      ensures Valid() && Extends(old(View()), View())
      ensures Claims(Added(old(View()), View()))
              <==> old(connected && !ownsClipboard && suppressedHash != Some(nextImage)) && !throws
      ensures claimed <==> connected && ownsClipboard
    {
      hide ValidPng;
      ClaimsIff(View(), nextImage, throws);
      if !connected { return false; }
      image, currentHash := Some(nextImage), Some(nextImage);
      if suppressedHash == Some(nextImage) && !ownsClipboard { return false; }
      if !ownsClipboard {
        if throws { return false; }
        ownsClipboard := true;
        claimAttempts := claimAttempts + 1;
        log := log + [Claimed(nextImage)];
      }
      return true;
    }

    /** A refresh from its look at the focus on. */
    method AfterFocus(active: bool, now: nat)
      requires Valid()
      modifies this
      ensures View() == Step(old(View()), FocusSeen(active), now)
      ensures Valid() && ClaimsRightly(old(View()), View())
      ensures !active && connected ==> !ownsClipboard
    {
      hide Sound, ClaimsRightly;
      StepClaimsRightly(View(), FocusSeen(active), now);
      if !active && ownsClipboard { Release(); }
    }

    /** A refresh from its reading of the clipboard on. */
    method AfterRead(active: bool, png: Option<Image>, throws: bool, now: nat)
      requires Valid()
      modifies this
      ensures View() == Step(old(View()), ClipboardRead(active, png, throws), now)
      ensures Valid() && ClaimsRightly(old(View()), View())
    {
      hide ValidPng, Claim, ClaimsRightly;
      StepClaimsRightly(View(), ClipboardRead(active, png, throws), now);
      if png.None? || !ValidPng(png.value) {
        NothingRead(active, throws, now);
        return;
      }
      var nextImage := png.value;
      if currentHash != Some(nextImage) {
        suppressedHash := None;
        localImageChangedAt := now;
        claimAttempts := 0;
        image, currentHash := Some(nextImage), Some(nextImage);
        if active { var _ := ClaimImage(nextImage, throws); }
      } else if !ownsClipboard && suppressedHash != Some(nextImage) {
        if active { var _ := ClaimImage(nextImage, throws); }
      } else if !ownsClipboard {
        image := Some(nextImage);
      }
    }

    method NothingRead(active: bool, throws: bool, now: nat)
      requires Valid()
      modifies this
      ensures View() == ReadNothing(old(View()), active, throws, now)
      ensures Valid() && ClaimsRightly(old(View()), View())
      ensures !old(Transient(View().cache, now)) ==> image.None? && (connected ==> !ownsClipboard)
    {
      hide Claim, ValidPng, ClaimsRightly;
      StepClaimsRightly(View(), ClipboardRead(active, None, throws), now);
      if image.Some? && currentHash.Some? && localImageChangedAt != 0 && now - localImageChangedAt <= SETTLE {
        if active && !ownsClipboard && claimAttempts < MAX_CLAIMS { var _ := ClaimImage(image.value, throws); }
        return;
      }
      if ownsClipboard { Release(); }
      image, currentHash, suppressedHash := None, None, None;
      localImageChangedAt, claimAttempts := 0, 0;
    }

    /** The selection is lost; unless a local change is settling, its image is yielded. */
    method OnSelectionClear(now: nat)
      requires Valid()
      modifies this
      ensures View() == Step(old(View()), SelectionClear, now)
      ensures Valid() && ClaimsRightly(old(View()), View()) && !ownsClipboard
      ensures old(currentHash.Some? && !Settling(View().cache, now)) ==> Yielded(View(), old(currentHash.value), now)
    {
      hide ClaimsRightly, ValidPng;
      StepClaimsRightly(View(), SelectionClear, now);
      ownsClipboard := false;
      var settling := currentHash.Some? && now - localImageChangedAt <= SETTLE && claimAttempts < MAX_CLAIMS;
      suppressedHash := if settling then None else currentHash;
      log := log + [Lost];
    }

    /** The selection is given up, if the bridge has it, and the bridge is cut off: nothing is
        claimed any more. */
    method StopBridge(now: nat)
      requires Valid()
      modifies this
      ensures View() == Step(old(View()), Stop, now)
      ensures Valid() && ClaimsRightly(old(View()), View()) && stopped && !connected
      ensures !old(stopped) ==>
                Added(old(View()), View()) == (if old(connected && ownsClipboard) then [Released] else []) + [Stopped]
    {
      hide ClaimsRightly, ValidPng;
      StepClaimsRightly(View(), Stop, now);
      if stopped { return; }
      stopped := true;
      Release();
      connected := false;
      log := log + [Stopped];
    }
  }
}
