/** The review route: GET lists the approved reviews, POST stores a new
    unapproved one, every other method is refused. */
module ReviewsApi {
  import opened Common
  import Database
  import Http

  /** The JSON body of a POST. Only the first three fields are read; the
      fourth stands for whatever else a client sends, such as its own
      `isApproved`. */
  datatype ReviewBody = ReviewBody(patientName: string, rating: int, comment: string, isApproved: Option<bool>)

  /** The route handler: the response and the store after the request. */
  function Handle(httpMethod: string, body: ReviewBody, s: Database.Store, next: Database.Fresh)
    : (r: (Http.Response, Database.Store))
    ensures httpMethod == "GET" ==>
      r.0 == Http.Response(Http.StatusOk, Http.ReviewList(Database.ApprovedReviews(s))) && r.1 == s
    ensures httpMethod == "POST" ==> r.0.status == Http.StatusCreated && r.0.body.ReviewJson?
    ensures httpMethod == "POST" ==> r.1.reviews == s.reviews + [r.0.body.review]
    ensures httpMethod == "POST" ==>
      r.1.patients == s.patients && r.1.appointments == s.appointments && r.1.services == s.services
    ensures httpMethod == "POST" ==> var review := r.0.body.review;
      && review.patientName == body.patientName && review.rating == body.rating
      && review.comment == body.comment && !review.isApproved
    ensures httpMethod != "GET" && httpMethod != "POST" ==> r.0 == Http.Response(Http.StatusMethodNotAllowed, Http.Empty) && r.1 == s
  {
    if httpMethod == "GET" then
      (Http.Response(Http.StatusOk, Http.ReviewList(Database.ApprovedReviews(s))), s)
    else if httpMethod == "POST" then
      var (review, s1) := Database.InsertReview(s,
        Database.ReviewInput(body.patientName, body.rating, body.comment), false, next);
      (Http.Response(Http.StatusCreated, Http.ReviewJson(review)), s1)
    else
      (Http.Response(Http.StatusMethodNotAllowed, Http.Empty), s)
  }

  /** A GET returns every approved review as often as it is stored, and no
      other, newer ones first. */
  lemma ListingShowsOnlyApproved(s: Database.Store, body: ReviewBody, next: Database.Fresh)
    ensures var listed := Handle("GET", body, s, next).0.body.reviews;
      && (forall x :: x in listed <==> x in s.reviews && x.isApproved)
      && (forall x :: multiset(listed)[x] == if x.isApproved then multiset(s.reviews)[x] else 0)
      && (forall i, j :: 0 <= i < j < |listed| ==> listed[i].createdAt >= listed[j].createdAt)
  {
  }

  /** What the client claims about approval makes no difference. */
  lemma ApprovalClaimIgnored(s: Database.Store, body: ReviewBody, claim: Option<bool>, next: Database.Fresh)
    ensures Handle("POST", body, s, next) == Handle("POST", body.(isApproved := claim), s, next)
  {
  }

  /** A review just submitted is not listed by the next GET, which returns
      exactly what it returned before the submission. */
  lemma SubmittedReviewNotListed(s: Database.Store, body: ReviewBody, next: Database.Fresh, later: Database.Fresh)
    ensures var (posted, s1) := Handle("POST", body, s, next);
      var listed := Handle("GET", body, s1, later).0.body.reviews;
      && posted.body.review !in listed
      && listed == Handle("GET", body, s, later).0.body.reviews
  {
    var s1 := Handle("POST", body, s, next).1;
    Database.UnapprovedReviewKeepsApprovedListing(s,
      Database.ReviewInput(body.patientName, body.rating, body.comment), next);
  }
}
