/** The hero title's typing effect (app.js, `initTypingEffect`): an interval
    that appends one character of the title per tick and clears itself on the
    first tick after the whole title is shown. */
module TitleTyper {

  const Title := "Shekhar Singh"

  function Min(a: int, b: int): int {
    if a <= b then a else b
  }

  /** The title element, the counter `i` and whether the interval is still
      registered. `ticks` counts the interval's callbacks so far. */
  class Typer {
    const text: string
    var shown: string
    var i: nat
    var running: bool
    ghost var ticks: nat

    /** After `ticks` callbacks the element shows the first
        `min(ticks, |text|)` characters, the counter never passes the text's
        length, and the interval is registered until tick `|text| + 1`, after
        which it no longer calls back. */
    ghost predicate Valid()
      reads this
    {
      && i <= |text|
      && ticks <= |text| + 1
      && i == Min(ticks, |text|)
      && shown == text[..i]
      && (running <==> ticks <= |text|)
    }

    /** The element is emptied and the interval registered. */
    constructor ()
      ensures Valid()
      ensures text == Title && shown == "" && ticks == 0 && running
    {
      text := Title;
      shown := "";
      i := 0;
      running := true;
      ticks := 0;
    }

    /** One interval callback: show the next character, or clear the
        interval when the text is complete. */
    method Tick()
      requires Valid() && running
      modifies this
      ensures Valid()
      ensures ticks == old(ticks) + 1
      ensures shown == text[..Min(ticks, |text|)]
      ensures old(shown) <= shown
      ensures running <==> old(i) < |text|
    {
      if i < |text| {
        shown := shown + [text[i]];
        i := i + 1;
      } else {
        running := false;
      }
      ticks := ticks + 1;
    }

    /** The timer calling back until the interval is cleared: the whole
        title ends up shown, after exactly `|text| + 1` callbacks. */
    method RunToCompletion()
      requires Valid()
      modifies this
      ensures Valid() && !running
      ensures shown == text && ticks == |text| + 1
    {
      while running
        invariant Valid()
        decreases |text| + 1 - ticks
      {
        Tick();
      }
      assert text[..|text|] == text;
    }
  }
}
