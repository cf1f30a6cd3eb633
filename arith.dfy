/** Facts about products of reals, kept apart from the model so that
    their proofs see no other definitions. */
module Arith {
  /** A speed smaller than both sizes gives such a step for every heading. */
  lemma ShortStep(speed: real, c: real, size: int)
    requires -1.0 <= c <= 1.0
    requires -(size as real) < speed < size as real
    ensures -(size as real) < speed * c < size as real
  {
    if speed >= 0.0 {
      assert speed * c <= speed by {
        MulNonneg(speed, 1.0 - c);
        assert speed * (1.0 - c) == speed - speed * c;
      }
      assert -speed <= speed * c by {
        MulNonneg(speed, c + 1.0);
        assert speed * (c + 1.0) == speed * c + speed;
      }
    } else {
      assert speed <= speed * c by {
        MulNonneg(-speed, 1.0 - c);
        assert -speed * (1.0 - c) == speed * c - speed;
      }
      assert speed * c <= -speed by {
        MulNonneg(-speed, c + 1.0);
        assert -speed * (c + 1.0) == -speed * c - speed;
      }
    }
  }

  lemma MulNonneg(a: real, b: real)
    requires 0.0 <= a && 0.0 <= b
    ensures 0.0 <= a * b
  {
  }
}
