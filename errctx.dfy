/** `get_error_context`: the window of parser input shown around a parse
    error. Every expat-driven tool carries an identical copy. */
module ErrorContext {

  /** Where the window starts in the input context, where the error sits
      inside the window, and how long the window is. */
  datatype Window = Window(start: int, offset: int, len: int)

  /** The window of at most `want` bytes on each side of the error
      position `ctxOffset` inside an input context of `ctxSize` bytes. */
  function ErrorWindow(ctxOffset: int, ctxSize: int, want: int): (w: Window)
    // the reported offset points back at the error position
    ensures w.start + w.offset == ctxOffset
    ensures 0 <= w.start && w.offset <= want
    ensures w.start + w.len <= ctxSize && w.start + w.len <= ctxOffset + want
    // the window is as wide as the two bounds allow
    ensures w.start == 0 || w.offset == want
    ensures w.start + w.len == ctxSize || w.start + w.len == ctxOffset + want
    // for an error position inside the context, the window contains it
    ensures 0 <= ctxOffset <= ctxSize && 0 <= want ==>
              0 <= w.offset <= w.len && w.start <= ctxOffset
  {
    var myStart := if ctxOffset <= want then 0 else ctxOffset - want;
    var myEnd := if ctxSize <= ctxOffset + want then ctxSize else ctxOffset + want;
    Window(myStart, ctxOffset - myStart, myEnd - myStart)
  }

  /** The bytes of the window, taken from the input context `ctx`, and the
      position of the error inside them. */
  function ErrorContextText(ctx: seq<char>, ctxOffset: int, want: int): (r: (seq<char>, int))
    requires 0 <= ctxOffset <= |ctx| && 0 <= want
    ensures 0 <= r.1 <= |r.0| <= 2 * want
    ensures 0 <= ctxOffset - r.1 && ctxOffset - r.1 + |r.0| <= |ctx|
    ensures r.0 == ctx[ctxOffset - r.1 .. ctxOffset - r.1 + |r.0|]
    ensures r.1 == want || r.1 == ctxOffset
  {
    var w := ErrorWindow(ctxOffset, |ctx|, want);
    (ctx[w.start .. w.start + w.len], w.offset)
  }
}
