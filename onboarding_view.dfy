/**
 * The onboarding pager (`OnboardingView`): five pages, a page counter that
 * the Next button advances and the tab view may set, and a completion
 * callback fired from the last page.
 */
module Onboarding {
  import opened Foundation

  /** One onboarding page; the SwiftUI preview view is not modelled. `image` defaults to `nil`. */
  datatype OnboardingPage = OnboardingPage(image: Option<string> := None, title: string, description: string)

  /** The pages, in order. */
  const Pages: seq<OnboardingPage> := [
    OnboardingPage(image := Some("checkmark.circle.fill"), title := "Welcome to Obsesso",
      description := "Your personal double-check logger for peace of mind"),
    OnboardingPage(title := "Record Your Actions",
      description := "Capture short videos of your double-checks"),
    OnboardingPage(title := "Review Past Checks",
      description := "Easily access your history of double-checks"),
    OnboardingPage(title := "Home Screen Reminder",
      description := "See your latest double-check right on Obsesso's home screen"),
    OnboardingPage(title := "Widgets",
      description := "Add Obsesso widget to your home screen for quick access")
  ]

  const NextLabel := "Next"
  const GetStartedLabel := "Get Started"

  /** There are five pages; only the first names an image, the others take the default. */
  lemma PagesShape()
    ensures |Pages| == 5
    ensures Pages[0].image == Some("checkmark.circle.fill")
    ensures forall i :: 1 <= i < |Pages| ==> Pages[i].image == None
  {
  }

  /** The pager as the button sees it: the current page and how often `onComplete` has fired. */
  datatype Pager = Pager(page: int, completions: nat)

  /** One press of the button on a pager of `pageCount` pages. */
  function Press(p: Pager, pageCount: int): (r: Pager)
    requires 0 <= p.page < pageCount
    ensures 0 <= r.page < pageCount
    ensures (r.page == p.page + 1 && r.completions == p.completions) ||
            (r.page == p.page && r.completions == p.completions + 1)
    ensures r.completions > p.completions <==> p.page == pageCount - 1
  {
    if p.page < pageCount - 1 then Pager(p.page + 1, p.completions)
    else Pager(p.page, p.completions + 1)
  }

  /** `presses` presses in a row. */
  function PressTimes(p: Pager, pageCount: int, presses: nat): (r: Pager)
    requires 0 <= p.page < pageCount
    ensures 0 <= r.page < pageCount
    decreases presses
  {
    if presses == 0 then p else Press(PressTimes(p, pageCount, presses - 1), pageCount)
  }

  /** The button title for the current page. */
  function ButtonLabel(page: int, pageCount: int): (text: string)
    ensures text == NextLabel || text == GetStartedLabel
    ensures text == GetStartedLabel <==> page >= pageCount - 1
  {
    if page < pageCount - 1 then NextLabel else GetStartedLabel
  }

  /** The label tells what a press does: "Next" exactly when a press advances instead of completing. */
  lemma LabelMatchesPress(p: Pager, pageCount: int)
    requires 0 <= p.page < pageCount
    ensures ButtonLabel(p.page, pageCount) == NextLabel <==> Press(p, pageCount).page == p.page + 1
    ensures ButtonLabel(p.page, pageCount) == GetStartedLabel <==>
      Press(p, pageCount).completions == p.completions + 1
  {
  }

  /**
   * From any page, presses first walk to the last page one page at a time,
   * then every further press fires the completion once and stays put.
   */
  lemma {:induction false} PressTimesWalks(p: Pager, pageCount: int, presses: nat)
    requires 0 <= p.page < pageCount
    ensures p.page + presses <= pageCount - 1 ==>
      PressTimes(p, pageCount, presses) == Pager(p.page + presses, p.completions)
    ensures p.page + presses > pageCount - 1 ==>
      PressTimes(p, pageCount, presses) ==
        Pager(pageCount - 1, p.completions + (p.page + presses - (pageCount - 1)))
    decreases presses
  {
    if presses > 0 {
      PressTimesWalks(p, pageCount, presses - 1);
    }
  }

  /** From the first page of the five, four presses reach the last page and the fifth completes onboarding. */
  lemma FifthPressCompletes()
    ensures PressTimes(Pager(0, 0), |Pages|, 4) == Pager(4, 0)
    ensures PressTimes(Pager(0, 0), |Pages|, 5) == Pager(4, 1)
  {
    PressTimesWalks(Pager(0, 0), |Pages|, 4);
    PressTimesWalks(Pager(0, 0), |Pages|, 5);
  }

  class OnboardingView {
    var currentPage: int   // @State currentPage
    var completions: nat   // how often onComplete has been called
    const pages: seq<OnboardingPage>

    /** The page counter stays on a page that exists. */
    ghost predicate Valid()
      reads this
    {
      0 <= currentPage < |pages|
    }

    /** A fresh view starts on the first page of the five. */
    constructor ()
      ensures Valid()
      ensures pages == Pages && currentPage == 0 && completions == 0
    {
      pages := Pages;
      currentPage := 0;
      completions := 0;
    }

    /** The Next / Get Started button: advance while not on the last page, otherwise call `onComplete`. */
    method PressButton()
      requires Valid()
      modifies this
      ensures Valid()
      ensures Pager(currentPage, completions) == Press(Pager(old(currentPage), old(completions)), |pages|)
    {
      if currentPage < |pages| - 1 {
        currentPage := currentPage + 1;
      } else {
        completions := completions + 1;
      }
    }

    /** Swiping the tab view selects a page by its tag; the tags are `0 ..< pages.count`. */
    method SelectTab(tag: int)
      requires Valid()
      requires 0 <= tag < |pages|
      modifies this
      ensures Valid()
      ensures currentPage == tag && completions == old(completions)
    {
      currentPage := tag;
    }
  }
}
