/** The chat assistant's canned replies: `getFallbackResponse` lower-cases the
    question and tries eleven keyword branches in a fixed order, each with its own
    fixed reply, falling back to a twelfth. */
module ChatBot {
  import opened Seqs
  import opened JsText

  /** The twelve replies, named by the branch that gives them. */
  datatype Reply = Plastic | Bike | Recycle | Compost | Energy | Water | Challenge | Tree | Food | Greeting | Help | Default

  /** The text of each reply, verbatim. */
  function ReplyText(r: Reply): string
  {
    match r
    case Plastic => "\U{1F30A} Avoid single-use plastics! Try using reusable bags, bottles, and containers. Every small change helps reduce ocean pollution!"
    case Bike => "\U{1F6B4}\U{200D}\U{2640}\U{FE0F} Biking reduces CO2 emissions and keeps you healthy! It's one of the most eco-friendly ways to travel. Great choice!"
    case Recycle => "\U{267B}\U{FE0F} Recycling is amazing! Remember to clean containers, separate materials, and check your local recycling guidelines. Every item counts!"
    case Compost => "\U{1F331} Composting turns organic waste into nutrient-rich soil! Start with fruit peels, vegetable scraps, and coffee grounds. Avoid meat and dairy."
    case Energy => "\U{1F4A1} Save energy by using LED bulbs, unplugging devices, and using natural light when possible. Small actions make a big difference!"
    case Water => "\U{1F4A7} Conserve water by taking shorter showers, fixing leaks, and using a dishwasher instead of hand washing. Every drop matters!"
    case Challenge => "\U{1F3AF} Try these eco-challenges: Use reusable bags, take shorter showers, bike instead of driving, or start composting! Pick one and start today!"
    case Tree => "\U{1F333} Trees are nature's air purifiers! Plant native species, support reforestation projects, or even grow herbs on your windowsill!"
    case Food => "\U{1F957} Eat more plants, buy local produce, and reduce food waste! Even one plant-based meal per week makes a positive impact!"
    case Greeting => "\U{1F44B} Hello! I'm GreenBot, your eco-friendly assistant! Ask me about recycling, biking, composting, or any green living tips!"
    case Help => "\U{1F916} I can help you with eco-friendly tips! Ask me about: plastic alternatives, recycling, composting, energy saving, water conservation, or eco challenges!"
    case Default => "\U{1F331} That's a great question! Try recycling, biking, composting, or taking shorter showers today. Every eco-friendly action helps our planet!"
  }

  /** `getFallbackResponse`: the text of the reply chosen for the lower-cased input. */
  function FallbackResponse(input: string): string
  {
    ReplyText(Classify(ToLowerCase(input)))
  }

  /** The branch chain of `getFallbackResponse` on the lower-cased input: the first
      branch with a keyword that occurs gives the reply; with none, the default reply. */
  function Classify(lowerInput: string): Reply
  {
    if Contains(lowerInput, "plastic") then Plastic
    else if Contains(lowerInput, "bike") || Contains(lowerInput, "bicycle") then Bike
    else if Contains(lowerInput, "recycle") || Contains(lowerInput, "recycling") then Recycle
    else if Contains(lowerInput, "compost") then Compost
    else if Contains(lowerInput, "energy") || Contains(lowerInput, "electricity") then Energy
    else if Contains(lowerInput, "water") then Water
    else if Contains(lowerInput, "challenge") || Contains(lowerInput, "eco challenge") then Challenge
    else if Contains(lowerInput, "tree") || Contains(lowerInput, "plant") then Tree
    else if Contains(lowerInput, "food") || Contains(lowerInput, "eat") then Food
    else if Contains(lowerInput, "hello") || Contains(lowerInput, "hi") || Contains(lowerInput, "hey") then Greeting
    else if Contains(lowerInput, "help") || Contains(lowerInput, "what can you do") then Help
    else Default
  }

  /** A branch of the classifier: any of its keywords selects its reply. */
  datatype Rule = Rule(keywords: seq<string>, reply: Reply)

  /** The branches in the order they are tried. */
  const Rules: seq<Rule> := [
    Rule(["plastic"], Plastic),
    Rule(["bike", "bicycle"], Bike),
    Rule(["recycle", "recycling"], Recycle),
    Rule(["compost"], Compost),
    Rule(["energy", "electricity"], Energy),
    Rule(["water"], Water),
    Rule(["challenge", "eco challenge"], Challenge),
    Rule(["tree", "plant"], Tree),
    Rule(["food", "eat"], Food),
    Rule(["hello", "hi", "hey"], Greeting),
    Rule(["help", "what can you do"], Help)
  ]

  /** Some keyword of the list occurs in `text`. */
  predicate Mentions(text: string, keywords: seq<string>)
  {
    exists i :: 0 <= i < |keywords| && Contains(text, keywords[i])
  }

  /** A table-driven classifier: the reply of the first rule, from index `k` on,
      that is mentioned in `text`, or the default reply. */
  function FirstMatch(rules: seq<Rule>, k: nat, text: string): (r: Reply)
    requires k <= |rules|
    ensures r == Default || exists i :: k <= i < |rules| && r == rules[i].reply
    ensures (forall i :: k <= i < |rules| ==> !Mentions(text, rules[i].keywords)) ==> r == Default
    decreases |rules| - k
  {
    if k == |rules| then Default
    else if Mentions(text, rules[k].keywords) then rules[k].reply
    else FirstMatch(rules, k + 1, text)
  }

  lemma MentionsOne(text: string, a: string)
    ensures Mentions(text, [a]) <==> Contains(text, a)
  {
    assert [a][0] == a;
  }

  lemma MentionsTwo(text: string, a: string, b: string)
    ensures Mentions(text, [a, b]) <==> Contains(text, a) || Contains(text, b)
  {
    assert [a, b][0] == a && [a, b][1] == b;
  }

  lemma MentionsThree(text: string, a: string, b: string, c: string)
    ensures Mentions(text, [a, b, c]) <==> Contains(text, a) || Contains(text, b) || Contains(text, c)
  {
    assert [a, b, c][0] == a && [a, b, c][1] == b && [a, b, c][2] == c;
  }

  /** One step of the table walk. */
  lemma FirstMatchStep(rules: seq<Rule>, k: nat, text: string, keywords: seq<string>, reply: Reply)
    requires k < |rules| && rules[k] == Rule(keywords, reply)
    ensures FirstMatch(rules, k, text) ==
            if Mentions(text, keywords) then reply else FirstMatch(rules, k + 1, text)
  {
  }

  /** The branch chain is the rule table tried in order. */
  lemma ClassifyIsFirstMatch(t: string)
    ensures Classify(t) == FirstMatch(Rules, 0, t)
  {
    FirstMatchStep(Rules, 0, t, ["plastic"], Plastic);
    MentionsOne(t, "plastic");
    if !Contains(t, "plastic") {
      FirstMatchFromBike(t);
      if !(Contains(t, "bike") || Contains(t, "bicycle") || Contains(t, "recycle") ||
           Contains(t, "recycling") || Contains(t, "compost")) {
        FirstMatchFromEnergy(t);
        if !(Contains(t, "energy") || Contains(t, "electricity") || Contains(t, "water")) {
          FirstMatchFromChallenge(t);
          if !(Contains(t, "challenge") || Contains(t, "eco challenge") || Contains(t, "tree") ||
               Contains(t, "plant")) {
            FirstMatchFromFood(t);
          }
        }
      }
    }
  }

  lemma FirstMatchFromBike(t: string)
    ensures FirstMatch(Rules, 1, t) ==
      if Contains(t, "bike") || Contains(t, "bicycle") then Bike
      else if Contains(t, "recycle") || Contains(t, "recycling") then Recycle
      else if Contains(t, "compost") then Compost
      else FirstMatch(Rules, 4, t)
  {
    FirstMatchStep(Rules, 1, t, ["bike", "bicycle"], Bike);
    MentionsTwo(t, "bike", "bicycle");
    FirstMatchStep(Rules, 2, t, ["recycle", "recycling"], Recycle);
    MentionsTwo(t, "recycle", "recycling");
    FirstMatchStep(Rules, 3, t, ["compost"], Compost);
    MentionsOne(t, "compost");
  }

  lemma FirstMatchFromEnergy(t: string)
    ensures FirstMatch(Rules, 4, t) ==
      if Contains(t, "energy") || Contains(t, "electricity") then Energy
      else if Contains(t, "water") then Water
      else FirstMatch(Rules, 6, t)
  {
    FirstMatchStep(Rules, 4, t, ["energy", "electricity"], Energy);
    MentionsTwo(t, "energy", "electricity");
    FirstMatchStep(Rules, 5, t, ["water"], Water);
    MentionsOne(t, "water");
  }

  lemma FirstMatchFromChallenge(t: string)
    ensures FirstMatch(Rules, 6, t) ==
      if Contains(t, "challenge") || Contains(t, "eco challenge") then Challenge
      else if Contains(t, "tree") || Contains(t, "plant") then Tree
      else FirstMatch(Rules, 8, t)
  {
    FirstMatchStep(Rules, 6, t, ["challenge", "eco challenge"], Challenge);
    MentionsTwo(t, "challenge", "eco challenge");
    FirstMatchStep(Rules, 7, t, ["tree", "plant"], Tree);
    MentionsTwo(t, "tree", "plant");
    FirstMatchFromFood(t);
  }

  lemma FirstMatchFromFood(t: string)
    ensures FirstMatch(Rules, 8, t) ==
      if Contains(t, "food") || Contains(t, "eat") then Food
      else if Contains(t, "hello") || Contains(t, "hi") || Contains(t, "hey") then Greeting
      else if Contains(t, "help") || Contains(t, "what can you do") then Help
      else Default
  {
    FirstMatchStep(Rules, 8, t, ["food", "eat"], Food);
    MentionsTwo(t, "food", "eat");
    FirstMatchStep(Rules, 9, t, ["hello", "hi", "hey"], Greeting);
    MentionsThree(t, "hello", "hi", "hey");
    FirstMatchStep(Rules, 10, t, ["help", "what can you do"], Help);
    MentionsTwo(t, "help", "what can you do");
  }

  /** The reply depends only on the lower-cased input: lower-casing it first changes nothing. */
  lemma FallbackIgnoresCase(input: string)
    ensures Classify(ToLowerCase(ToLowerCase(input))) == Classify(ToLowerCase(input))
    ensures FallbackResponse(ToLowerCase(input)) == FallbackResponse(input)
  {
    ToLowerCaseIdempotent(input);
  }

  /** Any input in which some spelling of "plastic" occurs gets the plastic reply,
      whatever else it mentions. */
  lemma PlasticWins(before: string, word: string, after: string)
    requires ToLowerCase(word) == "plastic"
    ensures Classify(ToLowerCase(before + word + after)) == Plastic
  {
    var lb := ToLowerCase(before);
    ToLowerCaseAppend(before + word, after);
    ToLowerCaseAppend(before, word);
    var t := ToLowerCase(before + word + after);
    assert t == lb + "plastic" + ToLowerCase(after);
    assert t[|lb|..] == "plastic" + ToLowerCase(after);
    ContainsFrom(t, |lb|, "plastic");
  }

  /** The default reply comes exactly when no keyword of any branch occurs in the
      lower-cased input. */
  lemma DefaultIffNoKeyword(input: string)
    ensures Classify(ToLowerCase(input)) == Default <==>
            forall i :: 0 <= i < |Rules| ==> !Mentions(ToLowerCase(input), Rules[i].keywords)
  {
    ClassifyIsFirstMatch(ToLowerCase(input));
    RulesAvoidDefault();
    FirstMatchDefaultIff(Rules, 0, ToLowerCase(input));
  }

  /** Only the fall-through gives the default reply. */
  lemma RulesAvoidDefault()
    ensures forall j :: 0 <= j < |Rules| ==> Rules[j].reply != Default
  {
  }

  lemma {:induction false} FirstMatchDefaultIff(rules: seq<Rule>, k: nat, text: string)
    requires k <= |rules|
    requires forall j :: 0 <= j < |rules| ==> rules[j].reply != Default
    ensures FirstMatch(rules, k, text) == Default <==>
            forall i :: k <= i < |rules| ==> !Mentions(text, rules[i].keywords)
    decreases |rules| - k
  {
    if k < |rules| {
      FirstMatchDefaultIff(rules, k + 1, text);
    }
  }

  /** Otherwise the first branch, in table order, with a keyword in the input gives the reply. */
  lemma FirstMentionedRuleAnswers(input: string, k: nat)
    requires k < |Rules| && Mentions(ToLowerCase(input), Rules[k].keywords)
    requires forall j :: 0 <= j < k ==> !Mentions(ToLowerCase(input), Rules[j].keywords)
    ensures Classify(ToLowerCase(input)) == Rules[k].reply
  {
    ClassifyIsFirstMatch(ToLowerCase(input));
    FirstMatchAtFirstMentioned(Rules, 0, k, ToLowerCase(input));
  }

  lemma {:induction false} FirstMatchAtFirstMentioned(rules: seq<Rule>, from: nat, k: nat, text: string)
    requires from <= k < |rules| && Mentions(text, rules[k].keywords)
    requires forall j :: from <= j < k ==> !Mentions(text, rules[j].keywords)
    ensures FirstMatch(rules, from, text) == rules[k].reply
    decreases k - from
  {
    if from < k {
      FirstMatchAtFirstMentioned(rules, from + 1, k, text);
    }
  }

  /** "hi" is a plain substring test: "this" mentions no earlier keyword and gets the greeting. */
  lemma ThisIsAGreeting()
    ensures Classify(ToLowerCase("this")) == Greeting
  {
    ThisIsLowerCase();
    ThisMentionsNoEarlierKeyword();
    var t := "this";
    assert t[1..][..2] == "hi";
    ContainsFrom(t, 1, "hi");
  }

  lemma ThisIsLowerCase()
    ensures ToLowerCase("this") == "this"
  {
  }

  lemma ThisMentionsNoEarlierKeyword()
    ensures !Contains("this", "plastic") && !Contains("this", "bike") && !Contains("this", "bicycle")
    ensures !Contains("this", "recycle") && !Contains("this", "recycling") && !Contains("this", "compost")
    ensures !Contains("this", "energy") && !Contains("this", "electricity") && !Contains("this", "water")
    ensures !Contains("this", "challenge") && !Contains("this", "eco challenge")
    ensures !Contains("this", "tree") && !Contains("this", "plant")
    ensures !Contains("this", "food") && !Contains("this", "eat") && !Contains("this", "hello")
  {
    ThisLacksLongKeywords();
    ThisLacksShortKeywords();
  }

  /** Keywords longer than "this" cannot occur in it. */
  lemma ThisLacksLongKeywords()
    ensures !Contains("this", "plastic") && !Contains("this", "bicycle") && !Contains("this", "recycle")
    ensures !Contains("this", "recycling") && !Contains("this", "compost") && !Contains("this", "energy")
    ensures !Contains("this", "electricity") && !Contains("this", "water") && !Contains("this", "challenge")
    ensures !Contains("this", "eco challenge") && !Contains("this", "plant") && !Contains("this", "hello")
  {
    var t := "this";
    assert forall i :: 0 <= i <= |t| ==> |t[i..]| <= 4;
  }

  /** The four- and three-letter keywords do not occur in "this" either. */
  lemma ThisLacksShortKeywords()
    ensures !Contains("this", "bike") && !Contains("this", "tree") && !Contains("this", "food")
    ensures !Contains("this", "eat")
  {
    var t := "this";
    assert forall i :: 0 <= i <= |t| ==> |t[i..]| <= 4;
    assert t[0..] == t && t[0] == 't' && t[1..][0] == 'h';
  }

  /** The 'eco challenge' test never decides anything: every text containing it
      contains 'challenge', which is tested first in the same branch. */
  lemma EcoChallengeIsSubsumed(text: string)
    ensures Contains(text, "challenge") || Contains(text, "eco challenge") <==> Contains(text, "challenge")
  {
    if Contains(text, "eco challenge") {
      assert "eco challenge" == "eco " + "challenge";
      ContainsSuffix(text, "eco ", "challenge");
    }
  }
}
