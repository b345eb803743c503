/** Background.update: two scroll offsets that advance one pixel per call
    and wrap from the bottom of the screen back above its top. */
module Scrolling {
  import opened Geometry

  class Background {
    var scrollY1: int
    var scrollY2: int

    /** The two copies of the image stay in [-HEIGHT, HEIGHT) and exactly
        one screen apart, so together they always tile the screen. */
    ghost predicate Valid()
      reads this
    {
      -HEIGHT <= scrollY1 < HEIGHT && -HEIGHT <= scrollY2 < HEIGHT &&
      (scrollY1 - scrollY2 == HEIGHT || scrollY2 - scrollY1 == HEIGHT)
    }

    constructor ()
      ensures Valid() && scrollY1 == 0 && scrollY2 == -HEIGHT
    {
      scrollY1 := 0;
      scrollY2 := -HEIGHT;
    }

    method Update()
      modifies this
      ensures old(Valid()) ==> Valid()
      ensures scrollY1 == if old(scrollY1) + 1 >= HEIGHT then -HEIGHT else old(scrollY1) + 1
      ensures scrollY2 == if old(scrollY2) + 1 >= HEIGHT then -HEIGHT else old(scrollY2) + 1
    {
      scrollY1 := scrollY1 + 1;
      scrollY2 := scrollY2 + 1;
      if scrollY1 >= HEIGHT {
        scrollY1 := -HEIGHT;
      }
      if scrollY2 >= HEIGHT {
        scrollY2 := -HEIGHT;
      }
    }
  }
}
