/**
 * The role checks the handlers repeat inline. Most files accept "colab"; createReview
 * (convex/social.ts) and blog.ts create accept "collaborator" instead, so a user whose role is
 * "colab" passes one and fails the other. Both spellings are kept apart here.
 */
module Roles {
  import opened Base
  import opened Records

  /** `role === "colab" || role === "admin"`: may create posts, blogs, projects and skills. */
  predicate IsColabOrAdmin(role: Role)
  {
    role == "colab" || role == "admin"
  }

  /** `role === "admin"`. */
  predicate IsAdmin(role: Role)
  {
    role == "admin"
  }

  /** createReview's test on the reviewed user: "collaborator" or "admin". */
  predicate IsReviewTarget(role: Role)
  {
    role == "collaborator" || role == "admin"
  }

  /** blog.ts create's test on the author: "admin" or "collaborator". */
  predicate IsBlogWriter(role: Role)
  {
    role == "admin" || role == "collaborator"
  }

  /** getCollaborators' test: any role other than "user". */
  predicate IsListedCollaborator(role: Role)
  {
    role != "user"
  }

  /** An admin passes every role gate. */
  lemma AdminPassesEveryGate(role: Role)
    requires IsAdmin(role)
    ensures IsColabOrAdmin(role) && IsReviewTarget(role) && IsBlogWriter(role) && IsListedCollaborator(role)
  {
  }

  /** The two spellings disagree: "colab" may create posts but may not write through blog.ts or be reviewed. */
  lemma ColabSpellingsDisagree()
    ensures IsColabOrAdmin("colab") && !IsBlogWriter("colab") && !IsReviewTarget("colab")
    ensures !IsColabOrAdmin("collaborator") && IsBlogWriter("collaborator") && IsReviewTarget("collaborator")
  {
  }
}
