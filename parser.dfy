/**
 * The strictly positional header cursor: a window `fpos..tpos` over the
 * input string. `next(len)` moves the window to the `len` characters that
 * follow it; `get()` reads the window; `reset(to)` rewinds it to `0..to`.
 */
module Cursor {
  import opened Js
  import opened Metadata

  class HeaderParser {
    const str: string
    const settings: Settings
    const initTo: int       // `$initTo`
    var fpos: int
    var tpos: int

    /** The window is well-ordered, as it is whenever every step length is non-negative. */
    ghost predicate Ordered()
      reads this
    {
      0 <= fpos <= tpos
    }

    constructor (str: string, settings: Settings, to: int := 0)
      ensures this.str == str && this.settings == settings && initTo == to
      ensures fpos == 0 && tpos == to
      ensures to >= 0 ==> Ordered()
    {
      this.str := str;
      this.settings := settings;
      initTo := to;
      new;
      Reset(to);
    }

    /**
     * `get()`: the text in the window. Past the end of the input it is
     * shorter than the window, or empty, rather than an error.
     */
    function Get(): (r: string)
      reads this
      ensures |r| <= |str|
      ensures 0 <= fpos <= tpos <= |str| ==> r == str[fpos..tpos] && |r| == tpos - fpos
      ensures 0 <= fpos <= |str| <= tpos ==> r == str[fpos..]
      ensures |str| <= fpos <= tpos ==> r == ""
      ensures fpos == tpos ==> r == ""
    {
      Substring(str, fpos, tpos)
    }

    /**
     * `next(len)`: the new window starts where the old one ended and is
     * `len` long, so successive fields are contiguous and do not overlap.
     */
    method Next(len: int := 0)
      modifies this`fpos, this`tpos
      ensures fpos == old(tpos) && tpos == old(tpos) + len
      ensures old(Ordered()) && len >= 0 ==> Ordered()
    {
      fpos := tpos;
      tpos := tpos + len;
    }

    /** `reset(to)`: the window `0..to`; by default `to` is the constructor's. */
    method Reset(to: int := initTo)
      modifies this`fpos, this`tpos
      ensures fpos == 0 && tpos == to
      ensures to >= 0 ==> Ordered()
    {
      fpos := 0;
      tpos := to;
    }
  }
}
