/** The texts the game shows: the floating prompt of updateOrganDisplay and the
    timer label of updateTimerDisplay. Fonts, meshes and layout are not modelled. */
module Display {
  import opened Text
  import opened Anchors

  /** The prompt for a remaining target: on two lines when
      `"Place the " + name` is longer than 15 characters. */
  function PlacePrompt(name: string): (r: string)
    ensures r == (if |name| > 5 then "Place the\n" else "Place the ") + name
    ensures |r| == 10 + |name| && r[10..] == name
  {
    if |"Place the " + name| > 15 then "Place the\n" + name else "Place the " + name
  }

  /** The name shown for a target: the organ name in simple mode, else the node
      name after cutName. Both kinds of entry have a `name` in the source. */
  function TargetLabel(simple: bool, t: Target): (r: string)
    ensures simple && t.Group? ==> r == t.name
    ensures !simple && t.Single? ==> r == CutName(t.node.name)
  {
    var name := match t case Group(n, _) => n case Single(node) => node.name;
    if simple then name else CutName(name)
  }

  /** In advanced mode the label is the node name up to its first separator:
      a prefix of the name with no separator in it, and the whole name when it
      has none. */
  lemma AdvancedLabel(t: Target)
    requires t.Single?
    ensures var r := TargetLabel(false, t);
      |r| <= |t.node.name| && r == t.node.name[..|r|]
      && (forall j: nat :: !MarkerAt(r, j))
      && ((forall j: nat :: !MarkerAt(t.node.name, j)) ==> r == t.node.name)
  {
    var r := TargetLabel(false, t);
    forall j: nat ensures !MarkerAt(r, j) { CutNameHasNoMarker(t.node.name, j); }
    if forall j: nat :: !MarkerAt(t.node.name, j) {
      assert |r| == |t.node.name|;
    }
  }

  function ModeText(simple: bool): (r: string)
    ensures simple <==> r == "Simple Mode"
    ensures |r| >= 5 && r[|r| - 5..] == " Mode"
  {
    if simple then "Simple Mode" else "Advanced Mode"
  }

  /** `Congratulations!\n${modeText} completed in ${timerValue}s!`. */
  function CompletionText(simple: bool, seconds: nat): string {
    "Congratulations!\n" + ModeText(simple) + " completed in " + NatToString(seconds) + "s!"
  }

  /** The text of the floating prompt for the target at `index` of `queue`:
      "Place the", a space or a line break, then the target's label; after
      the last target, the completion message with the elapsed seconds. */
  function OrganDisplayText(simple: bool, queue: seq<Target>, index: nat, seconds: nat): (r: string)
    ensures index < |queue| ==>
      var name := TargetLabel(simple, queue[index]);
      |r| == 10 + |name| && r[..9] == "Place the" && r[10..] == name
      && (r[9] == '\n' <==> |name| > 5) && (r[9] == ' ' <==> |name| <= 5)
    ensures index >= |queue| ==>
      var head := "Congratulations!\n" + ModeText(simple) + " completed in ";
      |r| == |head| + |NatToString(seconds)| + 2 && r[..17] == "Congratulations!\n"
      && r[..|head|] == head && r[|head|..|r| - 2] == NatToString(seconds) && r[|r| - 2..] == "s!"
  {
    if index < |queue| then
      var r := PlacePrompt(TargetLabel(simple, queue[index]));
      assert r[..9] == "Place the";
      r
    else
      var r := CompletionText(simple, seconds);
      CompletionReportsSeconds(simple, seconds);
      assert r[..17] == "Congratulations!\n";
      r
  }

  /** After the last target the prompt reports the elapsed seconds: the digits
      between "completed in " and "s!" read back to the timer value. */
  lemma DisplayReportsSeconds(simple: bool, queue: seq<Target>, index: nat, seconds: nat)
    requires index >= |queue|
    ensures var r := OrganDisplayText(simple, queue, index, seconds);
      var head := "Congratulations!\n" + ModeText(simple) + " completed in ";
      |head| <= |r| - 2 && ParseDigits(r[|head|..|r| - 2]) == seconds
  {
    ParseNatToString(seconds);
  }

  /** The prompt and the completion message are told apart by their first line. */
  lemma PromptIsNotCompletion(name: string, simple: bool, seconds: nat)
    ensures PlacePrompt(name) != CompletionText(simple, seconds)
  {
    assert PlacePrompt(name)[0] == 'P';
    assert CompletionText(simple, seconds)[0] == 'C';
  }

  /** The completion message reports the elapsed seconds: they can be read back
      from the text after "Congratulations!\n<mode> completed in ". */
  lemma {:induction false} CompletionReportsSeconds(simple: bool, seconds: nat)
    ensures var head := "Congratulations!\n" + ModeText(simple) + " completed in ";
      var r := CompletionText(simple, seconds);
      |r| == |head| + |NatToString(seconds)| + 2
      && r[..|head|] == head
      && r[|head|..|r| - 2] == NatToString(seconds)
      && ParseDigits(r[|head|..|r| - 2]) == seconds
  {
    var head := "Congratulations!\n" + ModeText(simple) + " completed in ";
    var r := CompletionText(simple, seconds);
    assert r == head + NatToString(seconds) + "s!";
    assert r[..|head|] == head;
    assert r[|head|..|r| - 2] == NatToString(seconds);
    ParseNatToString(seconds);
  }

  /** `TIMER: ${timerValue}s`. */
  function TimerText(seconds: nat): (r: string)
    ensures |r| >= 9 && r[..7] == "TIMER: " && r[|r| - 1] == 's'
    ensures r[7..|r| - 1] == NatToString(seconds) && ParseDigits(r[7..|r| - 1]) == seconds
  {
    var r := "TIMER: " + NatToString(seconds) + "s";
    assert r[7..|r| - 1] == NatToString(seconds);
    ParseNatToString(seconds);
    r
  }
}
