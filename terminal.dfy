/// The console line editor of src/lib.rs: a scrollback of lines and a
/// prompt edited by the window's character and key events.
module Terminal {
  import opened RustInt

  /// The prompt accepts a character only while its length is below this.
  const PromptCap: nat := 70
  /// The largest length a prompt can reach: 69 bytes plus a 4-byte character.
  const PromptMax: nat := PromptCap + 3
  /// The delete character '\u{7f}', which the event handler never appends.
  const Del: char := '\U{7F}'
  /// The fixed text get_full_prompt puts before the prompt.
  const PromptPrefix: string := "root@192.168.0.7> "
  /// Vertical pixel step of one console line in draw.
  const LineHeight: nat := 16
  /// Top margin of the console text in draw.
  const TopMargin: nat := 5

  /// Number of bytes of `c` in UTF-8, the unit of Rust's String::len.
  function Utf8Len(c: char): (n: nat)
    ensures 1 <= n <= 4
    ensures n == 1 <==> (c as int) < 0x80
  {
    if (c as int) < 0x80 then 1
    else if (c as int) < 0x800 then 2
    else if (c as int) < 0x10000 then 3
    else 4
  }

  /// Rust's String::len: the UTF-8 byte length of the text.
  function ByteLen(s: string): nat
  {
    if s == [] then 0 else ByteLen(s[..|s| - 1]) + Utf8Len(s[|s| - 1])
  }

  predicate IsAscii(s: string)
  {
    forall k :: 0 <= k < |s| ==> (s[k] as int) < 0x80
  }

  lemma {:induction false} ByteLenConcat(a: string, b: string)
    ensures ByteLen(a + b) == ByteLen(a) + ByteLen(b)
    decreases |b|
  {
    if b == [] {
      assert a + b == a;
    } else {
      var b' := b[..|b| - 1];
      assert (a + b)[..|a + b| - 1] == a + b';
      ByteLenConcat(a, b');
    }
  }

  /// For ASCII text, bytes and characters coincide.
  lemma {:induction false} AsciiByteLen(s: string)
    requires IsAscii(s)
    ensures ByteLen(s) == |s|
    decreases |s|
  {
    if s != [] {
      AsciiByteLen(s[..|s| - 1]);
    }
  }

  /// A byte length never undercounts characters.
  lemma {:induction false} ByteLenAtLeastLength(s: string)
    ensures |s| <= ByteLen(s) <= 4 * |s|
    decreases |s|
  {
    if s != [] {
      ByteLenAtLeastLength(s[..|s| - 1]);
    }
  }

  /// The prompt after a ReceivedCharacter(c) event.
  function Pushed(p: string, c: char): (r: string)
    ensures c != Del && ByteLen(p) < PromptCap ==> r == p + [c]
    ensures c == Del || ByteLen(p) >= PromptCap ==> r == p
    ensures ByteLen(p) <= PromptMax ==> ByteLen(r) <= PromptMax
    ensures Del !in p ==> Del !in r
    ensures |p| <= PromptCap ==> |r| <= PromptCap
  {
    ByteLenAtLeastLength(p);
    if c != Del && ByteLen(p) < PromptCap then
      assert (p + [c])[..|p + [c]| - 1] == p;
      p + [c]
    else p
  }

  /// Only DEL is filtered: control characters are appended like any other.
  lemma ControlCharAccepted(p: string, c: char)
    requires c != Del && (c as int) < 0x20 && ByteLen(p) < PromptCap
    ensures Pushed(p, c) == p + [c]
    ensures Pushed("", '\r') == "\r" && Pushed("", '\U{8}') == "\U{8}"
  {
    assert ByteLen("") == 0;
    assert [] + ['\r'] == "\r" && [] + ['\U{8}'] == "\U{8}";
  }

  /// The prompt after a Back key: String::pop drops the last character, if any.
  function Popped(p: string): (r: string)
    ensures p == [] ==> r == []
    ensures p != [] ==> |r| == |p| - 1 && p == r + [p[|p| - 1]]
    ensures ByteLen(r) <= ByteLen(p)
  {
    if p == [] then [] else p[..|p| - 1]
  }

  /// Backspace undoes an accepted character.
  lemma PushThenPop(p: string, c: char)
    requires c != Del && ByteLen(p) < PromptCap
    ensures Popped(Pushed(p, c)) == p
  {
  }

  /// The prompt-editing events handled by `event`.
  datatype Edit = Typed(c: char) | Back

  function Edited(p: string, es: seq<Edit>): string
    decreases |es|
  {
    if es == [] then p
    else
      var q := if es[0].Typed? then Pushed(p, es[0].c) else Popped(p);
      Edited(q, es[1..])
  }

  /// Any run of edits keeps the prompt within PromptMax bytes.
  lemma {:induction false} EditsStayBounded(p: string, es: seq<Edit>)
    requires ByteLen(p) <= PromptMax
    ensures ByteLen(Edited(p, es)) <= PromptMax
    decreases |es|
  {
    if es != [] {
      var q := if es[0].Typed? then Pushed(p, es[0].c) else Popped(p);
      EditsStayBounded(q, es[1..]);
    }
  }

  /// With ASCII input the cap of 70 is never exceeded, in bytes or characters.
  lemma {:induction false} AsciiEditsStayWithinCap(p: string, es: seq<Edit>)
    requires IsAscii(p) && |p| <= PromptCap
    requires forall k :: 0 <= k < |es| && es[k].Typed? ==> (es[k].c as int) < 0x80
    ensures IsAscii(Edited(p, es)) && |Edited(p, es)| <= PromptCap
    decreases |es|
  {
    if es != [] {
      AsciiByteLen(p);
      var q := if es[0].Typed? then Pushed(p, es[0].c) else Popped(p);
      assert IsAscii(q);
      if es[0].Typed? && es[0].c != Del && ByteLen(p) < PromptCap {
        assert |q| == |p| + 1;
      }
      assert |q| <= PromptCap;
      assert forall k :: 0 <= k < |es[1..]| && es[1..][k].Typed? ==> (es[1..][k].c as int) < 0x80 by {
        forall k | 0 <= k < |es[1..]| ensures es[1..][k] == es[k + 1] { }
      }
      AsciiEditsStayWithinCap(q, es[1..]);
    }
  }

  /// Whatever the characters, any run of edits keeps the prompt within 70
  /// characters: a push needs fewer than 70 bytes, hence fewer than 70 characters.
  lemma {:induction false} EditsStayWithinCap(p: string, es: seq<Edit>)
    requires |p| <= PromptCap
    ensures |Edited(p, es)| <= PromptCap
    decreases |es|
  {
    if es != [] {
      var q := if es[0].Typed? then Pushed(p, es[0].c) else Popped(p);
      EditsStayWithinCap(q, es[1..]);
    }
  }

  /// No sequence of edits ever puts a DEL into the prompt.
  lemma {:induction false} EditsNeverAddDel(p: string, es: seq<Edit>)
    requires Del !in p
    ensures Del !in Edited(p, es)
    decreases |es|
  {
    if es != [] {
      var q := if es[0].Typed? then Pushed(p, es[0].c) else Popped(p);
      EditsNeverAddDel(q, es[1..]);
    }
  }

  /// The scrollback once draw's loop `while lines.len() >= max { lines.remove(0) }`
  /// has run.
  function Evicted<T>(lines: seq<T>, max: nat): (r: seq<T>)
    requires max >= 1
    decreases |lines|
    ensures |r| < max
    ensures |lines| < max ==> r == lines
  {
    if |lines| >= max then Evicted(lines[1..], max) else lines
  }

  /// Eviction drops the oldest lines first: what remains is the newest
  /// `min(|lines|, max - 1)` lines, in their original order.
  lemma {:induction false} EvictedKeepsNewest<T>(lines: seq<T>, max: nat)
    requires max >= 1
    decreases |lines|
    ensures var r := Evicted(lines, max);
      && |r| == (if |lines| < max then |lines| else max - 1)
      && r == lines[|lines| - |r|..]
  {
    if |lines| >= max {
      var tail := lines[1..];
      EvictedKeepsNewest(tail, max);
      var n := |Evicted(tail, max)|;
      assert tail[|tail| - n..] == lines[|lines| - n..];
    }
  }

  /// draw's `max_line_count = (height - 5) / 16` for a window height in
  /// pixels, cast to usize.
  function MaxLineCount(height: nat): (r: nat)
    ensures r >= 1 <==> height >= TopMargin + LineHeight
    ensures height >= TopMargin ==> TopMargin + LineHeight * r <= height < TopMargin + LineHeight * (r + 1)
  {
    var q := Quot(height - TopMargin, LineHeight);
    assert q >= 0;
    q
  }

  /// After eviction for a window of height at least 21, the 16-pixel line
  /// slots of the kept lines and of the prompt below them end above the
  /// window's bottom edge. The caret and the 21-point glyphs drawn in those
  /// slots are not covered.
  lemma ScrollbackFitsWindow(lines: seq<string>, height: nat)
    requires height >= TopMargin + LineHeight
    ensures TopMargin + LineHeight * (|Evicted(lines, MaxLineCount(height))| + 1) <= height
  {
  }

  /// The console: finished lines, oldest first, and the line being typed.
  class Console {
    var lines: seq<string>
    var prompt: string

    /// A prompt can only grow by accepted characters, so it stays within
    /// PromptMax bytes and PromptCap characters.
    ghost predicate Valid()
      reads this
    {
      ByteLen(prompt) <= PromptMax && |prompt| <= PromptCap
    }

    /// Console::default.
    constructor ()
      ensures Valid()
      ensures lines == [] && prompt == ""
    {
      lines := [];
      prompt := "";
    }

    /// Console::get_full_prompt: the prefix followed by the prompt text.
    function FullPrompt(): (r: string)
      reads this
      ensures |r| == |PromptPrefix| + |prompt|
      ensures r[..|PromptPrefix|] == PromptPrefix && r[|PromptPrefix|..] == prompt
      ensures ByteLen(r) == |PromptPrefix| + ByteLen(prompt)
    {
      var r := PromptPrefix + prompt;
      ByteLenConcat(PromptPrefix, prompt);
      AsciiByteLen(PromptPrefix);
      r
    }

    /// Console::add_line: appends at the end, earlier lines untouched.
    method AddLine(line: string)
      requires Valid()
      modifies this
      ensures Valid()
      ensures lines == old(lines) + [line]
      ensures prompt == old(prompt)
    {
      lines := lines + [line];
    }

    /// The ReceivedCharacter arm of `event`.
    method PushChar(c: char)
      requires Valid()
      modifies this
      ensures Valid()
      ensures prompt == Pushed(old(prompt), c)
      ensures lines == old(lines)
    {
      ByteLenAtLeastLength(prompt);
      if c != Del {
        if ByteLen(prompt) < PromptCap {
          assert (prompt + [c])[..|prompt + [c]| - 1] == prompt;
          prompt := prompt + [c];
        }
      }
    }

    /// The KeyDown(Back) arm of `event`.
    method Backspace()
      requires Valid()
      modifies this
      ensures Valid()
      ensures prompt == Popped(old(prompt))
      ensures lines == old(lines)
    {
      if prompt != [] {
        prompt := prompt[..|prompt| - 1];
      }
    }

    /// The Return branch of `update`: the full prompt line joins the
    /// scrollback and the prompt is cleared.
    method Submit()
      requires Valid()
      modifies this
      ensures Valid()
      ensures lines == old(lines) + [PromptPrefix + old(prompt)]
      ensures |lines| == |old(lines)| + 1 && lines[|lines| - 1] == old(FullPrompt())
      ensures prompt == ""
    {
      AddLine(FullPrompt());
      prompt := "";
    }

    /// The eviction loop of `draw`: drops the oldest line while the
    /// scrollback holds at least `maxLineCount` lines.
    method Evict(maxLineCount: nat)
      requires Valid()
      requires maxLineCount >= 1
      modifies this
      ensures Valid()
      ensures lines == Evicted(old(lines), maxLineCount)
      ensures |lines| < maxLineCount
      ensures lines == old(lines)[|old(lines)| - |lines|..]
      ensures prompt == old(prompt)
    {
      EvictedKeepsNewest(lines, maxLineCount);
      while |lines| >= maxLineCount
        invariant Evicted(lines, maxLineCount) == Evicted(old(lines), maxLineCount)
        invariant prompt == old(prompt)
        decreases |lines|
      {
        lines := lines[1..];
      }
    }
  }
}
