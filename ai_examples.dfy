/** The fallback parser of src/lib/ai.ts on concrete inputs. */
module AiExamples {
  import opened Types
  import opened JsString
  import opened Ai

  /** A word holding a character the text lacks cannot occur in it. */
  lemma MissingCharExcludes(s: string, w: string, c: char)
    requires c in w && c !in s
    ensures !Includes(s, w)
  {
    IncludesIff(s, w);
  }

  /** The fallback assembled from its three computed parts. */
  lemma FallbackFrom(text: string, amount: nat, category: string, kind: Kind)
    requires FallbackAmount(text) == amount
    requires FallbackCategory(ToLower(text)) == category
    requires (kind == Income) == IsIncome(ToLower(text))
    ensures Fallback(text) == Fields(amount, category, kind, text)
  {
  }

  // "I spent $50 on groceries"

  lemma SpentSplit()
    ensures "I spent $50 on groceries" == "I spent $" + "50 on groceries"
    ensures forall k :: 0 <= k < |"I spent $"| ==> !IsDigit("I spent $"[k])
  {
  }

  lemma SpentDigits()
    ensures ReferenceAmount("50 on groceries") == 5000
  {
    var s := "50 on groceries";
    FirstDigitUnique(s, 0, 0);
    RunEndUnique(s, 0, 2);
    assert s[0..2] == "50";
    assert DigitsValue("50") == 50 by { assert "50"[..1] == "5"; }
    assert FractionCents(s, 2) == 0;
  }

  lemma SpentAmount()
    ensures FallbackAmount("I spent $50 on groceries") == 5000
  {
    SpentSplit();
    NonDigitPrefixIgnored("I spent $", "50 on groceries");
    FallbackAmountIsReference("50 on groceries");
    SpentDigits();
  }

  lemma SpentLower()
    ensures ToLower("I spent $50 on groceries") == "i spent $50 on groceries"
  {
  }

  lemma SpentNotIncome()
    ensures !IsIncome("i spent $50 on groceries")
  {
    SpentLacks();
    var lower := "i spent $50 on groceries";
    MissingCharExcludes(lower, "earned", 'a');
    MissingCharExcludes(lower, "received", 'v');
    MissingCharExcludes(lower, "salary", 'a');
  }

  lemma SpentLacks()
    ensures 'a' !in "i spent $50 on groceries" && 'v' !in "i spent $50 on groceries"
    ensures 'a' in "earned" && 'v' in "received" && 'a' in "salary"
  {
  }

  lemma SpentCategory()
    ensures FallbackCategory("i spent $50 on groceries") == "groceries"
  {
    var lower := "i spent $50 on groceries";
    assert OccursAt(lower, "groceries", 15);
    IncludesIff(lower, "groceries");
  }

  /** "I spent $50 on groceries": 50.00, groceries, expense, the text itself. */
  lemma SpentOnGroceries()
    ensures Fallback("I spent $50 on groceries") == Fields(5000, "groceries", Expense, "I spent $50 on groceries")
  {
    SpentAmount();
    SpentLower();
    SpentNotIncome();
    SpentCategory();
    FallbackFrom("I spent $50 on groceries", 5000, "groceries", Expense);
  }

  // "I earned 1200 salary this month"

  lemma EarnedSplit()
    ensures "I earned 1200 salary this month" == "I earned " + "1200 salary this month"
    ensures forall k :: 0 <= k < |"I earned "| ==> !IsDigit("I earned "[k])
  {
  }

  lemma EarnedDigits()
    ensures ReferenceAmount("1200 salary this month") == 120000
  {
    var s := "1200 salary this month";
    FirstDigitUnique(s, 0, 0);
    RunEndUnique(s, 0, 4);
    assert s[0..4] == "1200";
    assert DigitsValue("1200") == 1200 by {
      assert "1200"[..3] == "120";
      assert "120"[..2] == "12";
      assert "12"[..1] == "1";
    }
    assert FractionCents(s, 4) == 0;
  }

  lemma EarnedAmount()
    ensures FallbackAmount("I earned 1200 salary this month") == 120000
  {
    EarnedSplit();
    NonDigitPrefixIgnored("I earned ", "1200 salary this month");
    FallbackAmountIsReference("1200 salary this month");
    EarnedDigits();
  }

  lemma EarnedLower()
    ensures ToLower("I earned 1200 salary this month") == "i earned 1200 salary this month"
  {
  }

  lemma EarnedIsIncome()
    ensures IsIncome("i earned 1200 salary this month")
  {
    var lower := "i earned 1200 salary this month";
    assert lower[2] == 'e' && lower[3] == 'a' && lower[4] == 'r' && lower[5] == 'n' && lower[6] == 'e' && lower[7] == 'd';
    assert lower[2..8] == "earned";
    assert OccursAt(lower, "earned", 2);
    IncludesIff(lower, "earned");
  }

  lemma EarnedLacks()
    ensures 'g' !in "i earned 1200 salary this month" && 'g' in "groceries"
  {
  }

  lemma EarnedNoRent()
    ensures !Includes("i earned 1200 salary this month", "rent")
  {
    var lower := "i earned 1200 salary this month";
    assert forall k :: 0 <= k < |lower| && lower[k] == 'r' ==> k == 4 || k == 18;
    forall i | 0 <= i <= |lower| - 4 ensures !OccursAt(lower, "rent", i) {
      assert lower[i..i + 4][0] == lower[i] && lower[i..i + 4][1] == lower[i + 1];
    }
    IncludesIff(lower, "rent");
  }

  /** "salary" is the third label; the first two do not occur. */
  lemma EarnedCategory()
    ensures FallbackCategory("i earned 1200 salary this month") == "salary"
  {
    var lower := "i earned 1200 salary this month";
    EarnedLacks();
    MissingCharExcludes(lower, "groceries", 'g');
    EarnedNoRent();
    EarnedHasSalary();
  }

  lemma EarnedHasSalary()
    ensures Includes("i earned 1200 salary this month", "salary")
  {
    var lower := "i earned 1200 salary this month";
    assert lower[14..20] == "salary";
    assert OccursAt(lower, "salary", 14);
    IncludesIff(lower, "salary");
  }

  /** "I earned 1200 salary this month": 1200.00, salary, income. */
  lemma EarnedSalary()
    ensures Fallback("I earned 1200 salary this month")
         == Fields(120000, "salary", Income, "I earned 1200 salary this month")
  {
    EarnedAmount();
    EarnedLower();
    EarnedIsIncome();
    EarnedCategory();
    FallbackFrom("I earned 1200 salary this month", 120000, "salary", Income);
  }

  // "bought lunch"

  lemma LunchNoDigit()
    ensures ToLower("bought lunch") == "bought lunch"
    ensures forall k :: 0 <= k < |"bought lunch"| ==> !IsDigit("bought lunch"[k])
  {
  }

  lemma LunchLacks()
    ensures 'r' !in "bought lunch" && 'a' !in "bought lunch" && 'f' !in "bought lunch"
    ensures 'r' in "earned" && 'r' in "received" && 'a' in "salary"
    ensures 'r' in "groceries" && 'r' in "rent" && 'f' in "food"
    ensures 'r' in "transport" && 'r' in "entertainment"
  {
  }

  lemma LunchNoWords()
    ensures !IsIncome("bought lunch")
    ensures FallbackCategory("bought lunch") == OtherCategory
  {
    var text := "bought lunch";
    LunchLacks();
    MissingCharExcludes(text, "earned", 'r');
    MissingCharExcludes(text, "received", 'r');
    MissingCharExcludes(text, "salary", 'a');
    MissingCharExcludes(text, "groceries", 'r');
    MissingCharExcludes(text, "rent", 'r');
    MissingCharExcludes(text, "food", 'f');
    MissingCharExcludes(text, "transport", 'r');
    MissingCharExcludes(text, "entertainment", 'r');
  }

  /** "bought lunch": no digit, no keyword, no label: 0, other, expense. */
  lemma BoughtLunch()
    ensures Fallback("bought lunch") == Fields(0, OtherCategory, Expense, "bought lunch")
  {
    LunchNoDigit();
    NoDigitNoAmount("bought lunch");
    LunchNoWords();
    FallbackFrom("bought lunch", 0, OtherCategory, Expense);
  }

  // "food and rent"

  lemma FoodAndRentWords()
    ensures ToLower("food and rent") == "food and rent"
    ensures 'g' !in "food and rent" && 'g' in "groceries"
  {
  }

  lemma FoodAndRentNoGroceries()
    ensures !Includes("food and rent", "groceries")
  {
    FoodAndRentWords();
    MissingCharExcludes("food and rent", "groceries", 'g');
  }

  lemma FoodAndRentHasRent()
    ensures Includes("food and rent", "rent")
  {
    var lower := "food and rent";
    assert lower[9..13] == "rent";
    assert OccursAt(lower, "rent", 9);
    IncludesIff(lower, "rent");
  }

  lemma FoodAndRentCategory()
    ensures FallbackCategory("food and rent") == "rent"
  {
    FoodAndRentNoGroceries();
    FoodAndRentHasRent();
  }

  /** List order wins over position in the text: "food and rent" gives "rent". */
  lemma ListOrderWins()
    ensures Fallback("food and rent").category == "rent"
  {
    FoodAndRentWords();
    FoodAndRentCategory();
  }

  /** Keywords are matched whatever their case: "SALARY" is income. */
  lemma UpperCaseKeyword()
    ensures Fallback("SALARY").kind == Income
  {
    assert ToLower("SALARY") == "salary";
    assert OccursAt("salary", "salary", 0);
    IncludesIff("salary", "salary");
  }

  /** A minus sign is never captured: "-5" gives 5.00. */
  lemma MinusSignDropped()
    ensures FallbackAmount("-5") == 500
  {
    assert "-5" == "-" + "5";
    NonDigitPrefixIgnored("-", "5");
    FallbackAmountIsReference("5");
    FirstDigitUnique("5", 0, 0);
    RunEndUnique("5", 0, 1);
    assert "5"[0..1] == "5";
  }
}
