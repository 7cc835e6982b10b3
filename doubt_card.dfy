/**
  What the DoubtCard component (src/components/DoubtCard.jsx) decides to
  show for one doubt: the badges, the answer block and the resolve button.
  Markup and styling are not modelled; a badge is its text.  The relative
  time it prints is TimeAgo.Format.
*/
module DoubtCard {
  import opened Wrappers
  import opened PriorityQueues
  import opened Doubts
  import opened Projection

  datatype Badge = Badge(text: string)

  /** getPriorityBadge: a "Priority" badge for a priority doubt, nothing otherwise. */
  function PriorityBadge(d: Doubt): (r: Option<Badge>)
    ensures r.Some? <==> d.isPriority
    ensures r.Some? ==> r.value.text == "Priority"
  {
    if !d.isPriority then None else Some(Badge("Priority"))
  }

  /** getStatusBadge: "Answered" for the status 'answered', "Pending" for any other status. */
  function StatusBadge(d: Doubt): (r: Badge)
    ensures r.text == "Answered" <==> IsAnswered(d)
    ensures r.text == "Pending" <==> !IsAnswered(d)
  {
    if d.status == "answered" then Badge("Answered") else Badge("Pending")
  }

  /**
    The answer block is rendered when the status is 'answered' and the
    answer is not empty; so an answer only ever appears under an "Answered"
    badge.
  */
  predicate ShowsAnswer(d: Doubt)
    ensures ShowsAnswer(d) ==> StatusBadge(d).text == "Answered" && d.answer != ""
  {
    d.status == "answered" && d.answer != ""
  }

  /**
    The resolve button is rendered when actions are on, the doubt is pending
    and a handler is given; so it only appears under a "Pending" badge and
    never beside an answer.
  */
  predicate ShowsResolveAction(showActions: bool, d: Doubt, hasOnResolve: bool)
    ensures ShowsResolveAction(showActions, d, hasOnResolve) ==>
              IsPending(d) && StatusBadge(d).text == "Pending" && !ShowsAnswer(d)
  {
    showActions && d.status == "pending" && hasOnResolve
  }

  /**
    A queued doubt's card: a doubt in the priority queue shows the
    "Priority" and "Pending" badges; one in the general queue shows
    "Pending" and no priority badge; neither shows an answer.
  */
  lemma QueuedCards(doubts: seq<Doubt>, x: Doubt)
    ensures x in Elements(PriorityQueueOf(doubts)) ==>
              PriorityBadge(x) == Some(Badge("Priority")) && StatusBadge(x) == Badge("Pending") && !ShowsAnswer(x)
    ensures x in GeneralQueueOf(doubts) ==>
              PriorityBadge(x) == None && StatusBadge(x) == Badge("Pending") && !ShowsAnswer(x)
  {
    ProjectionMembers(doubts, x);
  }
}
