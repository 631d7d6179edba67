/**
 * Counter (Counter.cs): the integer stat holder behind a card's cost, attack and hp.  Only the
 * stored `_value` is modelled; the text tween that animates the displayed number is presentation.
 */
module Counters {

  const Half: int := 0x8000_0000
  const Modulus: int := 0x1_0000_0000

  /** The range of C#'s `int`. */
  predicate IsInt32(x: int)
  {
    -Half <= x < Half
  }

  /** C#'s unchecked `int` arithmetic: the mathematical result taken modulo 2^32 into the int
      range. */
  function Wrap32(x: int): (r: int)
    ensures IsInt32(r)
    ensures IsInt32(x) ==> r == x
    ensures (x - r) % Modulus == 0
  {
    (x + Half) % Modulus - Half
  }

  /** Shifting by whole multiples of 2^32 does not change the wrapped value. */
  lemma WrapShift(x: int, k: int)
    ensures Wrap32(x + k * Modulus) == Wrap32(x)
  {
  }

  /** Wrapping an intermediate sum does not change the wrapped total: two wrapping additions in
      a row equal one wrapping addition of the mathematical sum. */
  lemma WrapAdd(a: int, b: int)
    ensures Wrap32(Wrap32(a) + b) == Wrap32(a + b)
  {
  }

  class Counter {
    /** `_value`: written only by SetValue. */
    var value: int

    /** A new component holds C#'s default int, 0. */
    constructor ()
      ensures value == 0
    {
      value := 0;
    }

    /** SetValue: the stored value becomes v. */
    method SetValue(v: int)
      modifies this
      ensures value == v
    {
      value := v;
    }

    /** ModifyValue: adds d with C#'s wrapping int addition, goes through SetValue, and returns
        the new value. */
    method ModifyValue(d: int) returns (r: int)
      modifies this
      ensures r == Wrap32(old(value) + d)
      ensures IsInt32(old(value) + d) ==> r == old(value) + d
      ensures value == r
    {
      var v := Wrap32(value + d);
      SetValue(v);
      r := v;
    }
  }

  /** Two modifications in a row leave the same value as one modification by their sum. */
  method ModifyTwice(c: Counter, a: int, b: int) returns (r: int)
    modifies c
    ensures c.value == Wrap32(old(c.value) + (a + b))
    ensures r == c.value
  {
    var _ := c.ModifyValue(a);
    WrapAdd(old(c.value) + a, b);
    assert old(c.value) + a + b == old(c.value) + (a + b);
    r := c.ModifyValue(b);
  }
}
