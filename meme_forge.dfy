/**
 * The meme studio: the daily quota of simulated "AI" caption generations,
 * the canned caption pairs a generation picks from, and the commands the
 * draw effect issues to the canvas to put the captions over the image.
 */
module MemeForge {
  import opened Wrappers
  import Text

  // ---------------------------------------------------------------------
  // Daily generation quota

  /** Generations allowed per day, and the start value of `generationsLeft`. */
  const DailyLimit := 3

  /** A day as `toDateString` prints it; days are only compared for equality. */
  type Day = string

  /** The persisted `meme_gen_limit` entry. */
  datatype LimitRecord = LimitRecord(date: Day, count: int)

  /** The in-memory `generationsLeft` and the persisted entry, if there is one. */
  datatype Quota = Quota(left: int, stored: Option<LimitRecord>)

  /** The state when the studio mounts, before the load effect has run. */
  function Mounted(saved: Option<LimitRecord>): Quota
  {
    Quota(DailyLimit, saved)
  }

  /**
   * The load effect: an entry dated today is adopted as it is; any other
   * entry, or none, is replaced by a fresh entry for today. With no entry
   * the in-memory count keeps its start value.
   */
  function LoadQuota(q: Quota, today: Day): (r: Quota)
    ensures r.stored.Some? && r.stored.value.date == today
    ensures q.stored.Some? ==> InSync(r)
  {
    match q.stored
    case Some(saved) =>
      if saved.date == today then Quota(saved.count, q.stored)
      else Quota(DailyLimit, Some(LimitRecord(today, DailyLimit)))
    case None => Quota(q.left, Some(LimitRecord(today, DailyLimit)))
  }

  datatype CaptionPair = CaptionPair(top: string, bottom: string)

  /** The canned captions a generation picks from. */
  const AiCaptions: seq<CaptionPair> := [
    CaptionPair("WHEN THE CODE", "COMPILES FIRST TRY"),
    CaptionPair("DEPLOYING TO PROD", "ON A FRIDAY"),
    CaptionPair("IT'S NOT A BUG", "IT'S A FEATURE"),
    CaptionPair("MY CODE DOESN'T WORK", "I HAVE NO IDEA WHY"),
    CaptionPair("AI WILL TAKE OUR JOBS", "AI CAN'T CENTER A DIV")
  ]

  datatype Generation = Rejected | Generated(captions: CaptionPair, quota: Quota)

  /**
   * One generation request on day `today`. `choice` is the random index
   * into the caption list. The day is not compared with the stored one:
   * only the load effect resets the quota.
   */
  function Generate(q: Quota, today: Day, choice: nat): (g: Generation)
    requires choice < |AiCaptions|
    ensures g.Generated? <==> q.left > 0
  {
    if q.left <= 0 then Rejected
    else Generated(AiCaptions[choice], Quota(q.left - 1, Some(LimitRecord(today, q.left - 1))))
  }

  /** The persisted count agrees with the in-memory one. */
  predicate InSync(q: Quota)
  {
    q.stored.Some? && q.stored.value.count == q.left
  }

  /** An entry dated today is adopted, count and all. */
  lemma LoadSameDay(saved: LimitRecord, today: Day)
    requires saved.date == today
    ensures LoadQuota(Mounted(Some(saved)), today) == Quota(saved.count, Some(saved))
  {
  }

  /** A missing entry, or one from another day, becomes a full quota for today. */
  lemma LoadNewDay(saved: Option<LimitRecord>, today: Day)
    requires saved.None? || saved.value.date != today
    ensures LoadQuota(Mounted(saved), today) == Quota(DailyLimit, Some(LimitRecord(today, DailyLimit)))
  {
  }

  /** After the load effect the entry is dated today and agrees with the in-memory count. */
  lemma LoadSyncs(saved: Option<LimitRecord>, today: Day)
    ensures InSync(LoadQuota(Mounted(saved), today))
    ensures LoadQuota(Mounted(saved), today).stored.value.date == today
  {
  }

  /** With no generations left the request changes nothing. */
  lemma GenerateRejected(q: Quota, today: Day, choice: nat)
    requires choice < |AiCaptions| && q.left <= 0
    ensures Generate(q, today, choice) == Rejected
  {
  }

  /**
   * A granted request uses up one generation, persists the new count with
   * today's date, shows one of the canned caption pairs, keeps the two
   * counts in sync and never makes the count negative.
   */
  lemma GenerateConsumes(q: Quota, today: Day, choice: nat)
    requires choice < |AiCaptions| && q.left > 0
    ensures Generate(q, today, choice).Generated?
    ensures Generate(q, today, choice).quota.left == q.left - 1 >= 0
    ensures Generate(q, today, choice).quota.stored == Some(LimitRecord(today, q.left - 1))
    ensures InSync(Generate(q, today, choice).quota)
    ensures Generate(q, today, choice).captions in AiCaptions
  {
  }

  /** The quota after a run of requests on one day, and how many were granted. */
  function RunGenerations(q: Quota, today: Day, choices: seq<nat>): (r: (Quota, nat))
    requires forall i :: 0 <= i < |choices| ==> choices[i] < |AiCaptions|
    ensures r.1 <= |choices|
    ensures r.0.left == q.left - r.1
    decreases |choices|
  {
    if choices == [] then (q, 0)
    else match Generate(q, today, choices[0])
      case Rejected => RunGenerations(q, today, choices[1..])
      case Generated(_, q') =>
        var (last, granted) := RunGenerations(q', today, choices[1..]);
        (last, granted + 1)
  }

  function Min(a: int, b: int): int { if a <= b then a else b }

  /**
   * A run of requests grants as many as there are generations left and no
   * more; the count goes down by that number and never below zero.
   */
  lemma {:induction false} RunGenerationsGrants(q: Quota, today: Day, choices: seq<nat>)
    requires forall i :: 0 <= i < |choices| ==> choices[i] < |AiCaptions|
    requires q.left >= 0
    ensures RunGenerations(q, today, choices).1 == Min(|choices|, q.left)
    ensures RunGenerations(q, today, choices).0.left == q.left - Min(|choices|, q.left) >= 0
    ensures choices != [] && q.left > 0 ==> InSync(RunGenerations(q, today, choices).0)
    decreases |choices|
  {
    if choices != [] {
      match Generate(q, today, choices[0])
      case Rejected =>
        RunGenerationsGrants(q, today, choices[1..]);
      case Generated(_, q') =>
        RunGenerationsGrants(q', today, choices[1..]);
        if choices[1..] != [] && q'.left <= 0 {
          assert RunGenerations(q', today, choices[1..]).0 == q' by {
            RunGenerationsUnchangedWhenExhausted(q', today, choices[1..]);
          }
        }
    }
  }

  /** Once no generations are left, further requests change nothing. */
  lemma {:induction false} RunGenerationsUnchangedWhenExhausted(q: Quota, today: Day, choices: seq<nat>)
    requires forall i :: 0 <= i < |choices| ==> choices[i] < |AiCaptions|
    requires q.left <= 0
    ensures RunGenerations(q, today, choices) == (q, 0)
    decreases |choices|
  {
    if choices != [] {
      RunGenerationsUnchangedWhenExhausted(q, today, choices[1..]);
    }
  }

  /**
   * On a new day the three granted generations leave 2, 1 and 0, and the
   * fourth request is rejected.
   */
  lemma ThreeGenerationsPerDay(saved: Option<LimitRecord>, today: Day, c1: nat, c2: nat, c3: nat, c4: nat)
    requires saved.None? || saved.value.date != today
    requires c1 < |AiCaptions| && c2 < |AiCaptions| && c3 < |AiCaptions| && c4 < |AiCaptions|
    ensures var q0 := LoadQuota(Mounted(saved), today);
            && Generate(q0, today, c1).Generated? && Generate(q0, today, c1).quota.left == 2
            && var q1 := Generate(q0, today, c1).quota;
            && Generate(q1, today, c2).Generated? && Generate(q1, today, c2).quota.left == 1
            && var q2 := Generate(q1, today, c2).quota;
            && Generate(q2, today, c3).Generated? && Generate(q2, today, c3).quota.left == 0
            && var q3 := Generate(q2, today, c3).quota;
            && Generate(q3, today, c4) == Rejected
  {
    LoadNewDay(saved, today);
  }

  /**
   * The quota is not reset by a request made on a later day than the load:
   * an exhausted count stays exhausted, and a granted request carries the
   * old day's count over to the new date.
   */
  lemma GenerateDoesNotReset(q: Quota, loadDay: Day, today: Day, choice: nat)
    requires choice < |AiCaptions| && q.stored == Some(LimitRecord(loadDay, q.left)) && loadDay != today
    ensures q.left <= 0 ==> Generate(q, today, choice) == Rejected
    ensures q.left > 0 ==> Generate(q, today, choice).quota.stored == Some(LimitRecord(today, q.left - 1))
  {
  }

  /** The canned captions are non-empty and already upper case. */
  lemma AiCaptionsUpperCase(i: nat)
    requires i < |AiCaptions|
    ensures AiCaptions[i].top != "" && AiCaptions[i].bottom != ""
    ensures Text.ToUpper(AiCaptions[i].top) == AiCaptions[i].top
    ensures Text.ToUpper(AiCaptions[i].bottom) == AiCaptions[i].bottom
  {
    CaptionsUpperCase(i);
    Text.ToUpperOfUpperCase(AiCaptions[i].top);
    Text.ToUpperOfUpperCase(AiCaptions[i].bottom);
  }

  /** Each canned caption text has no lower-case letter. */
  lemma CaptionsUpperCase(i: nat)
    requires i < |AiCaptions|
    ensures Text.IsUpperCase(AiCaptions[i].top) && Text.IsUpperCase(AiCaptions[i].bottom)
    ensures AiCaptions[i].top != "" && AiCaptions[i].bottom != ""
  {
    if i == 0 { TopUpperCase0(); BottomUpperCase0(); }
    else if i == 1 { TopUpperCase1(); BottomUpperCase1(); }
    else if i == 2 { TopUpperCase2(); BottomUpperCase2(); }
    else if i == 3 { TopUpperCase3(); BottomUpperCase3(); }
    else { TopUpperCase4(); BottomUpperCase4(); }
  }

  // One lemma per caption text keeps each character check small.

  lemma TopUpperCase0()
    ensures Text.IsUpperCase(AiCaptions[0].top)
  {
    Text.UpperCaseByChars(AiCaptions[0].top);
  }

  lemma BottomUpperCase0()
    ensures Text.IsUpperCase(AiCaptions[0].bottom)
  {
    Text.UpperCaseByChars(AiCaptions[0].bottom);
  }

  lemma TopUpperCase1()
    ensures Text.IsUpperCase(AiCaptions[1].top)
  {
    Text.UpperCaseByChars(AiCaptions[1].top);
  }

  lemma BottomUpperCase1()
    ensures Text.IsUpperCase(AiCaptions[1].bottom)
  {
    Text.UpperCaseByChars(AiCaptions[1].bottom);
  }

  lemma TopUpperCase2()
    ensures Text.IsUpperCase(AiCaptions[2].top)
  {
    Text.UpperCaseByChars(AiCaptions[2].top);
  }

  lemma BottomUpperCase2()
    ensures Text.IsUpperCase(AiCaptions[2].bottom)
  {
    Text.UpperCaseByChars(AiCaptions[2].bottom);
  }

  lemma TopUpperCase3()
    ensures Text.IsUpperCase(AiCaptions[3].top)
  {
    Text.UpperCaseByChars(AiCaptions[3].top);
  }

  lemma BottomUpperCase3()
    ensures Text.IsUpperCase(AiCaptions[3].bottom)
  {
    Text.UpperCaseByChars(AiCaptions[3].bottom);
  }

  lemma TopUpperCase4()
    ensures Text.IsUpperCase(AiCaptions[4].top)
  {
    Text.UpperCaseByChars(AiCaptions[4].top);
  }

  lemma BottomUpperCase4()
    ensures Text.IsUpperCase(AiCaptions[4].bottom)
  {
    Text.UpperCaseByChars(AiCaptions[4].bottom);
  }

  /** The studio's state: the quota and the two caption inputs. */
  class Forge {
    var generationsLeft: int
    var limitEntry: Option<LimitRecord>
    var topText: string
    var bottomText: string

    constructor (saved: Option<LimitRecord>)
      ensures Snapshot() == Mounted(saved)
      ensures topText == "" && bottomText == ""
    {
      generationsLeft := DailyLimit;
      limitEntry := saved;
      topText := "";
      bottomText := "";
    }

    function Snapshot(): Quota
      reads this
    {
      Quota(generationsLeft, limitEntry)
    }

    /** The load effect, run once when the studio mounts. */
    method LoadLimit(today: Day)
      modifies this
      ensures Snapshot() == LoadQuota(old(Snapshot()), today)
      ensures topText == old(topText) && bottomText == old(bottomText)
    {
      match limitEntry
      case Some(saved) =>
        if saved.date == today {
          generationsLeft := saved.count;
        } else {
          limitEntry := Some(LimitRecord(today, DailyLimit));
          generationsLeft := DailyLimit;
        }
      case None =>
        limitEntry := Some(LimitRecord(today, DailyLimit));
    }

    /**
     * The generate button. The simulated delay is one step; `choice` is the
     * random caption index.
     */
    method HandleAIGenerate(today: Day, choice: nat) returns (granted: bool)
      requires choice < |AiCaptions|
      modifies this
      ensures granted <==> old(generationsLeft) > 0
      ensures !granted ==> Snapshot() == old(Snapshot()) && topText == old(topText) && bottomText == old(bottomText)
      ensures granted ==> Generate(old(Snapshot()), today, choice) == Generated(CaptionPair(topText, bottomText), Snapshot())
    {
      if generationsLeft <= 0 {
        return false;
      }
      var pick := AiCaptions[choice];
      topText := pick.top;
      bottomText := pick.bottom;
      var newCount := generationsLeft - 1;
      generationsLeft := newCount;
      limitEntry := Some(LimitRecord(today, newCount));
      return true;
    }
  }

  // ---------------------------------------------------------------------
  // Caption drawing

  datatype Baseline = Alphabetic | Top | Bottom

  datatype DrawCommand =
    | DrawImage(dx: int, dy: int)
    | StrokeText(text: string, x: real, y: real, baseline: Baseline)
    | FillText(text: string, x: real, y: real, baseline: Baseline)

  datatype ImageSize = ImageSize(width: nat, height: nat)

  /** Distance of the caption anchors from the top and bottom edges. */
  const CaptionMargin := 20

  /** A caption: nothing when empty, else its outline and then its fill, upper-cased. */
  function CaptionCommands(text: string, x: real, y: real, baseline: Baseline): (r: seq<DrawCommand>)
    ensures |r| == if text == "" then 0 else 2
    ensures forall i :: 0 <= i < |r| ==> !r[i].DrawImage? && r[i].x == x && r[i].y == y && r[i].baseline == baseline
  {
    if text == "" then []
    else [StrokeText(Text.ToUpper(text), x, y, baseline), FillText(Text.ToUpper(text), x, y, baseline)]
  }

  /** The commands of one redraw: the image, the top caption, the bottom caption. */
  function MemeCommands(image: ImageSize, top: string, bottom: string): (r: seq<DrawCommand>)
    ensures |r| >= 1 && r[0] == DrawImage(0, 0)
    ensures forall i :: 1 <= i < |r| ==> !r[i].DrawImage?
  {
    var x := image.width as real / 2.0;
    [DrawImage(0, 0)]
      + CaptionCommands(top, x, CaptionMargin as real, Top)
      + CaptionCommands(bottom, x, (image.height - CaptionMargin) as real, Bottom)
  }

  /** With both captions empty only the image is drawn. */
  lemma MemeWithoutCaptions(image: ImageSize)
    ensures MemeCommands(image, "", "") == [DrawImage(0, 0)]
  {
  }

  /** A redraw issues the image, then two commands per non-empty caption. */
  lemma MemeCommandCount(image: ImageSize, top: string, bottom: string)
    ensures |MemeCommands(image, top, bottom)|
         == 1 + (if top == "" then 0 else 2) + (if bottom == "" then 0 else 2)
    ensures MemeCommands(image, top, bottom)[0] == DrawImage(0, 0)
  {
  }

  /**
   * Every text command writes upper-case text, centred horizontally, at the
   * top anchor with a top baseline or at the bottom anchor with a bottom
   * baseline; every fill directly follows the stroke of the same text at
   * the same anchor.
   */
  lemma MemeTextCommands(image: ImageSize, top: string, bottom: string, i: nat)
    requires 0 < i < |MemeCommands(image, top, bottom)|
    ensures var c := MemeCommands(image, top, bottom)[i];
            && (c.StrokeText? || c.FillText?)
            && Text.IsUpperCase(c.text)
            && c.x == image.width as real / 2.0
            && c.baseline != Alphabetic
            && (c.baseline == Top ==> c.y == 20.0 && c.text == Text.ToUpper(top) && top != "")
            && (c.baseline == Bottom ==> c.y == (image.height - 20) as real && c.text == Text.ToUpper(bottom) && bottom != "")
            && (c.FillText? ==> MemeCommands(image, top, bottom)[i - 1] == StrokeText(c.text, c.x, c.y, c.baseline))
  {
    Text.ToUpperIsUpperCase(top);
    Text.ToUpperIsUpperCase(bottom);
  }

  /** The top caption is drawn before the bottom caption. */
  lemma MemeTopBeforeBottom(image: ImageSize, top: string, bottom: string, i: nat, j: nat)
    requires 0 < i < |MemeCommands(image, top, bottom)| && 0 < j < |MemeCommands(image, top, bottom)|
    requires MemeCommands(image, top, bottom)[i].baseline == Top
    requires MemeCommands(image, top, bottom)[j].baseline == Bottom
    ensures i < j
  {
  }

  /** Non-empty upper-case captions are drawn exactly as given. */
  lemma MemeDrawsUpperCaseCaptions(image: ImageSize, top: string, bottom: string)
    requires top != "" && bottom != ""
    requires Text.ToUpper(top) == top && Text.ToUpper(bottom) == bottom
    ensures var x := image.width as real / 2.0;
            (MemeCommands(image, top, bottom)
             == [ DrawImage(0, 0),
                  StrokeText(top, x, 20.0, Top), FillText(top, x, 20.0, Top),
                  StrokeText(bottom, x, (image.height - 20) as real, Bottom),
                  FillText(bottom, x, (image.height - 20) as real, Bottom) ])
  {
  }

  /** Captions typed in upper case draw the same as their lower-case originals. */
  lemma MemeUpperCaseInvariant(image: ImageSize, top: string, bottom: string)
    ensures MemeCommands(image, Text.ToUpper(top), Text.ToUpper(bottom)) == MemeCommands(image, top, bottom)
  {
    Text.ToUpperIdempotent(top);
    Text.ToUpperIdempotent(bottom);
  }

  /** A generated caption pair is drawn exactly as it is listed. */
  lemma MemeDrawsGeneratedCaption(image: ImageSize, choice: nat)
    requires choice < |AiCaptions|
    ensures var p := AiCaptions[choice];
            var x := image.width as real / 2.0;
            (MemeCommands(image, p.top, p.bottom)
             == [ DrawImage(0, 0),
                  StrokeText(p.top, x, 20.0, Top), FillText(p.top, x, 20.0, Top),
                  StrokeText(p.bottom, x, (image.height - 20) as real, Bottom),
                  FillText(p.bottom, x, (image.height - 20) as real, Bottom) ])
  {
    var p := AiCaptions[choice];
    AiCaptionsUpperCase(choice);
    MemeDrawsUpperCaseCaptions(image, p.top, p.bottom);
  }

  /**
   * The canvas and its 2D context, reduced to what the draw effect uses:
   * the size, the current text baseline, and the commands drawn since the
   * bitmap was last cleared.
   */
  class Canvas {
    var width: nat
    var height: nat
    var textBaseline: Baseline
    var drawn: seq<DrawCommand>

    /** A new canvas is 300 by 150 pixels and blank. */
    constructor ()
      ensures width == 300 && height == 150 && textBaseline == Alphabetic && drawn == []
    {
      width, height := 300, 150;
      textBaseline := Alphabetic;
      drawn := [];
    }

    /** Setting the width clears the bitmap and resets the context state. */
    method SetWidth(w: nat)
      modifies this
      ensures width == w && height == old(height) && textBaseline == Alphabetic && drawn == []
    {
      width := w;
      textBaseline := Alphabetic;
      drawn := [];
    }

    /** Setting the height clears the bitmap and resets the context state. */
    method SetHeight(h: nat)
      modifies this
      ensures height == h && width == old(width) && textBaseline == Alphabetic && drawn == []
    {
      height := h;
      textBaseline := Alphabetic;
      drawn := [];
    }

    method SetTextBaseline(b: Baseline)
      modifies this`textBaseline
      ensures textBaseline == b
    {
      textBaseline := b;
    }

    method DrawImageAt(x: int, y: int)
      modifies this`drawn
      ensures drawn == old(drawn) + [DrawImage(x, y)]
    {
      drawn := drawn + [DrawImage(x, y)];
    }

    method StrokeTextAt(text: string, x: real, y: real)
      modifies this`drawn
      ensures drawn == old(drawn) + [StrokeText(text, x, y, textBaseline)]
    {
      drawn := drawn + [StrokeText(text, x, y, textBaseline)];
    }

    method FillTextAt(text: string, x: real, y: real)
      modifies this`drawn
      ensures drawn == old(drawn) + [FillText(text, x, y, textBaseline)]
    {
      drawn := drawn + [FillText(text, x, y, textBaseline)];
    }
  }

  /**
   * The draw effect: with no image loaded nothing happens; otherwise the
   * canvas takes the image's size, which clears it, and the image and the
   * captions are drawn afresh, so a redraw never accumulates.
   */
  method DrawMeme(canvas: Canvas, image: Option<ImageSize>, topText: string, bottomText: string)
    modifies canvas
    ensures image.None? ==> unchanged(canvas)
    ensures image.Some? ==>
              && canvas.width == image.value.width && canvas.height == image.value.height
              && canvas.drawn == MemeCommands(image.value, topText, bottomText)
              && canvas.textBaseline == (if bottomText != "" then Bottom else if topText != "" then Top else Alphabetic)
  {
    if image.None? {
      return;
    }
    var img := image.value;
    canvas.SetWidth(img.width);
    canvas.SetHeight(img.height);
    canvas.DrawImageAt(0, 0);
    if topText != "" {
      canvas.SetTextBaseline(Top);
      canvas.StrokeTextAt(Text.ToUpper(topText), canvas.width as real / 2.0, CaptionMargin as real);
      canvas.FillTextAt(Text.ToUpper(topText), canvas.width as real / 2.0, CaptionMargin as real);
    }
    if bottomText != "" {
      canvas.SetTextBaseline(Bottom);
      canvas.StrokeTextAt(Text.ToUpper(bottomText), canvas.width as real / 2.0, (canvas.height - CaptionMargin) as real);
      canvas.FillTextAt(Text.ToUpper(bottomText), canvas.width as real / 2.0, (canvas.height - CaptionMargin) as real);
    }
  }
}
