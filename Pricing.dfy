/**
 * The pricing page of the web front end (frontend/src/app/pricing/page.tsx): two tiers, the
 * `classNames` helper that assembles a `className` from conditional pieces, and the choice of
 * classes for each tier's card.
 */
module Pricing {
  import opened Text

  /** `classes.filter(Boolean)`: the non-empty arguments, in their order. */
  function NonEmpty(classes: seq<string>): (r: seq<string>)
    ensures |r| <= |classes|
    ensures forall x :: x in r <==> x in classes && x != ""
    ensures (forall i :: 0 <= i < |classes| ==> classes[i] != "") ==> r == classes
    ensures r == [] <==> forall i :: 0 <= i < |classes| ==> classes[i] == ""
  {
    if |classes| == 0 then []
    else if classes[0] == "" then NonEmpty(classes[1..])
    else [classes[0]] + NonEmpty(classes[1..])
  }

  lemma {:induction false} NonEmptyConcat(a: seq<string>, b: seq<string>)
    ensures NonEmpty(a + b) == NonEmpty(a) + NonEmpty(b)
    decreases |a|
  {
    if |a| == 0 {
      assert a + b == b;
    } else {
      assert (a + b)[1..] == a[1..] + b;
      NonEmptyConcat(a[1..], b);
    }
  }

  /** `classNames(...classes)`: the non-empty arguments joined by single spaces. */
  function ClassNames(classes: seq<string>): (r: string)
    ensures (forall i :: 0 <= i < |classes| ==> classes[i] == "") ==> r == ""
  {
    Join(NonEmpty(classes), " ")
  }

  /**
   * Each space-separated token of the result is a token of some non-empty argument, in order:
   * splitting the result at spaces gives the arguments' own tokens one argument after another.
   */
  lemma ClassNamesTokens(classes: seq<string>)
    requires exists i :: 0 <= i < |classes| && classes[i] != ""
    ensures Split(ClassNames(classes), ' ') == SplitEach(NonEmpty(classes), ' ')
  {
    var i :| 0 <= i < |classes| && classes[i] != "";
    assert classes[i] in NonEmpty(classes);
    SplitJoin(NonEmpty(classes), ' ');
  }

  /** Arguments without spaces come back unchanged from the result, the empty ones dropped. */
  lemma ClassNamesRoundTrip(classes: seq<string>)
    requires exists i :: 0 <= i < |classes| && classes[i] != ""
    requires forall i :: 0 <= i < |classes| ==> ' ' !in classes[i]
    ensures Split(ClassNames(classes), ' ') == NonEmpty(classes)
  {
    var i :| 0 <= i < |classes| && classes[i] != "";
    assert classes[i] in NonEmpty(classes);
    var kept := NonEmpty(classes);
    forall k | 0 <= k < |kept| ensures ' ' !in kept[k] {
      assert kept[k] in classes;
    }
    SplitJoinPlain(kept, ' ');
  }

  /** An empty piece between two others leaves no double space. */
  lemma ClassNamesSkipsEmpty(x: string, y: string)
    requires x != "" && y != ""
    ensures ClassNames([x, "", y]) == x + " " + y
  {
    var parts := [x, "", y];
    assert parts[1..] == ["", y] && parts[1..][1..] == [y] && parts[1..][1..][1..] == [];
    assert NonEmpty(parts) == [x, y];
    assert [x, y][1..] == [y];
    assert Join([x, y], " ") == x + " " + y;
    assert ClassNames(parts) == Join([x, y], " ");
  }

  datatype Tier = Tier(name: string, id: string, href: string, priceMonthly: string,
                       description: string, features: seq<string>, featured: bool)

  const Tiers: seq<Tier> := [
    Tier("Basic", "tier-basic", "#", "₹49",
         "Ideal for individuals and small firms to analyze contracts efficiently.",
         ["Analyze up to 50 contracts per month", "Basic risk detection", "Standard contract templates",
          "Email support", "Response time within 48 hours"],
         false),
    Tier("Enterprise", "tier-enterprise", "#", "₹499",
         "Enterprise-grade AI legal analysis with premium support and automation.",
         ["Unlimited contract analysis", "AI-powered risk assessment & mitigation", "Automated compliance checks",
          "Custom workflow integrations", "Dedicated account manager", "24/7 priority support"],
         true)
  ]

  /** There are two tiers and only Enterprise is featured. */
  lemma TiersShape()
    ensures |Tiers| == 2
    ensures forall i :: 0 <= i < |Tiers| ==> (Tiers[i].featured <==> Tiers[i].name == "Enterprise")
    ensures Tiers[0].id != Tiers[1].id
  {
    assert Tiers[0].name[0] != "Enterprise"[0];
    assert Tiers[0].id[5] != Tiers[1].id[5];
  }

  const FeaturedCard := "relative bg-gray-900 dark:bg-gray-800 shadow-2xl"
  const PlainCard := "bg-white/60 dark:bg-gray-700 sm:mx-8 lg:mx-0"
  const FirstCorners := "rounded-t-3xl sm:rounded-b-none lg:rounded-tr-none lg:rounded-bl-3xl"
  const OtherCorners := "sm:rounded-t-none lg:rounded-tr-3xl lg:rounded-bl-none"
  const CardBase := "rounded-3xl p-8 ring-1 ring-gray-900/10 dark:ring-gray-700 sm:p-10"

  /** The corner-rounding piece: none for a featured tier, one variant for the first card, another for the rest. */
  function CornerClasses(featured: bool, tierIdx: nat): (r: string)
    ensures featured ==> r == ""
    ensures !featured && tierIdx == 0 ==> r == FirstCorners
    ensures !featured && tierIdx != 0 ==> r == OtherCorners
  {
    if featured then "" else if tierIdx == 0 then FirstCorners else OtherCorners
  }

  /** The card's `className`. */
  function CardClasses(featured: bool, tierIdx: nat): string {
    ClassNames([if featured then FeaturedCard else PlainCard, CornerClasses(featured, tierIdx), CardBase])
  }

  /**
   * A featured card has the dark classes and no corner variant; a plain card has the light
   * classes and the variant of its position, in the order written.
   */
  lemma CardClassesShape(featured: bool, tierIdx: nat)
    ensures featured ==> CardClasses(featured, tierIdx) == FeaturedCard + " " + CardBase
    ensures !featured ==>
      CardClasses(featured, tierIdx) == PlainCard + " " + CornerClasses(featured, tierIdx) + " " + CardBase
  {
    if featured {
      ClassNamesSkipsEmpty(FeaturedCard, CardBase);
    } else {
      var c := CornerClasses(featured, tierIdx);
      assert c != "";
      assert NonEmpty([PlainCard, c, CardBase]) == [PlainCard, c, CardBase];
      var parts := [PlainCard, c, CardBase];
      assert parts[1..] == [c, CardBase] && parts[1..][1..] == [CardBase];
      assert Join(parts[1..], " ") == c + " " + CardBase;
      assert Join(parts, " ") == PlainCard + " " + (c + " " + CardBase);
    }
  }

  /** The cards as the page lays them out: Basic is the first, plain card, and Enterprise the featured one. */
  lemma TierCards()
    ensures CardClasses(Tiers[0].featured, 0) == PlainCard + " " + FirstCorners + " " + CardBase
    ensures CardClasses(Tiers[1].featured, 1) == FeaturedCard + " " + CardBase
  {
    CardClassesShape(Tiers[0].featured, 0);
    CardClassesShape(Tiers[1].featured, 1);
  }
}
