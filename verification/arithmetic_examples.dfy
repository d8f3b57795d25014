/** The evaluator's behaviour on the inputs its test suites pin down. */
module ArithmeticExamples {
  import opened Wrappers
  import opened Strings
  import opened Arithmetic

  /** The text of one operation between two numerals evaluates to it. */
  lemma BinaryExample(a: nat, op: Op, b: nat, da: string, db: string, text: string)
    requires NatToDecimal(a) == da && NatToDecimal(b) == db
    requires da + [OpChar(op)] + db == text
    ensures Evaluate(text) == Apply(op, a, b)
  {
    EvaluateBinaryText(a, op, b);
  }

  lemma Case3Plus5()
    ensures Evaluate("3+5") == Some(8)
  {
    BinaryExample(3, Add, 5, "3", "5", "3+5");
  }

  lemma Case10Plus20()
    ensures Evaluate("10+20") == Some(30)
  {
    BinaryExample(10, Add, 20, "10", "20", "10+20");
  }

  lemma Case10Minus3()
    ensures Evaluate("10-3") == Some(7)
  {
    BinaryExample(10, Sub, 3, "10", "3", "10-3");
  }

  lemma Case100Minus50()
    ensures Evaluate("100-50") == Some(50)
  {
    BinaryExample(100, Sub, 50, "100", "50", "100-50");
  }

  lemma Case3Minus10()
    ensures Evaluate("3-10") == Some(-7)
  {
    BinaryExample(3, Sub, 10, "3", "10", "3-10");
  }

  lemma Case4Times5()
    ensures Evaluate("4*5") == Some(20)
  {
    BinaryExample(4, Mul, 5, "4", "5", "4*5");
  }

  lemma Case4Times2()
    ensures Evaluate("4*2") == Some(8)
  {
    BinaryExample(4, Mul, 2, "4", "2", "4*2");
  }

  lemma Case7Times8()
    ensures Evaluate("7*8") == Some(56)
  {
    BinaryExample(7, Mul, 8, "7", "8", "7*8");
  }

  lemma Case10Over2()
    ensures Evaluate("10/2") == Some(5)
  {
    BinaryExample(10, Div, 2, "10", "2", "10/2");
  }

  lemma Case15Over3()
    ensures Evaluate("15/3") == Some(5)
  {
    BinaryExample(15, Div, 3, "15", "3", "15/3");
  }

  lemma Case7Over2()
    ensures Evaluate("7/2") == Some(3)
  {
    BinaryExample(7, Div, 2, "7", "2", "7/2");
  }

  lemma Case10Over0()
    ensures Evaluate("10/0") == None
  {
    BinaryExample(10, Div, 0, "10", "0", "10/0");
  }

  lemma Case1Over0()
    ensures Evaluate("1/0") == None
  {
    BinaryExample(1, Div, 0, "1", "0", "1/0");
  }

  lemma Addition()
    ensures Evaluate("3+5") == Some(8)
    ensures Evaluate("10+20") == Some(30)
  {
    Case3Plus5();
    Case10Plus20();
  }

  /** Subtraction, including a negative result. */
  lemma Subtraction()
    ensures Evaluate("10-3") == Some(7)
    ensures Evaluate("100-50") == Some(50)
    ensures Evaluate("3-10") == Some(-7)
  {
    Case10Minus3();
    Case100Minus50();
    Case3Minus10();
  }

  lemma Multiplication()
    ensures Evaluate("4*5") == Some(20)
    ensures Evaluate("4*2") == Some(8)
    ensures Evaluate("7*8") == Some(56)
  {
    Case4Times5();
    Case4Times2();
    Case7Times8();
  }

  /** Division yields the integer quotient; a zero divisor yields `None`. */
  lemma IntegerDivision()
    ensures Evaluate("10/2") == Some(5)
    ensures Evaluate("15/3") == Some(5)
    ensures Evaluate("7/2") == Some(3)
    ensures Evaluate("10/0") == None
    ensures Evaluate("1/0") == None
  {
    Case10Over2();
    Case15Over3();
    Case7Over2();
    Case10Over0();
    Case1Over0();
  }

  /** `*` binds tighter than `+`. */
  lemma ProductBeforeSum()
    ensures Evaluate("2+3*4") == Some(14)
  {
    ProductBindsTighter(2, Add, 3, 4);
    assert NatToDecimal(2) + [OpChar(Add)] + BinaryText(3, Mul, 4) == "2+3*4";
  }

  lemma ProductBeforeSumAgain()
    ensures Evaluate("3+5*2") == Some(13)
  {
    ProductBindsTighter(3, Add, 5, 2);
    assert NatToDecimal(3) + [OpChar(Add)] + BinaryText(5, Mul, 2) == "3+5*2";
  }

  /** `*` binds tighter than `-`. */
  lemma ProductBeforeDifference()
    ensures Evaluate("10-2*3") == Some(4)
  {
    ProductBindsTighter(10, Sub, 2, 3);
    assert NatToDecimal(10) + [OpChar(Sub)] + BinaryText(2, Mul, 3) == "10-2*3";
  }

  /** Parentheses override precedence. */
  lemma Parentheses()
    ensures Evaluate("(2+3)*4") == Some(20)
  {
    ParenthesesGroupFirst(Binary(Add, Literal(2), Literal(3)), 4);
    assert Show(Binary(Add, Literal(2), Literal(3))) + "*" + NatToDecimal(4) == "(2+3)*4";
  }

  lemma LoneLiteral()
    ensures Evaluate("42") == Some(42)
  {
    EvaluateNumeral(42);
    assert NatToDecimal(42) == "42";
  }

  /** Division rounds towards negative infinity when the divisor is negative. */
  lemma FloorDivisionOfNegative()
    ensures Evaluate("(7/(3-5))") == Some(-4)
  {
    var e := Binary(Div, Literal(7), Binary(Sub, Literal(3), Literal(5)));
    EvaluateShow(e);
    assert Show(e) == "(7/(3-5))";
    assert Eval(Binary(Sub, Literal(3), Literal(5))) == Some(-2);
    assert FloorDiv(7, -2) == -4;
  }

  /** Letters, empty text and blanks give `None`. */
  lemma Rejections()
    ensures Evaluate("abc") == None
    ensures Evaluate("3+abc") == None
    ensures Evaluate("invalid") == None
    ensures Evaluate("") == None
    ensures Evaluate("   ") == None
  {
    EvaluateRejects("abc");
    assert IsLetter("abc"[0]);
    EvaluateRejects("3+abc");
    assert IsLetter("3+abc"[2]);
    EvaluateRejects("invalid");
    assert IsLetter("invalid"[0]);
    EvaluateRejects("");
    EvaluateRejects("   ");
  }
}
