/** The question column of the admin list of queries in backend/api/admin.py
    (QueryAdmin.question_preview). */
module Admin {

  const PreviewLength: nat := 50
  const Ellipsis: string := "..."

  /** A question of at most 50 characters is shown whole; a longer one is cut
      to its first 50 characters followed by "...". */
  function QuestionPreview(q: string): (r: string)
    ensures |q| <= PreviewLength ==> r == q
    ensures |q| > PreviewLength ==> |r| == PreviewLength + |Ellipsis| && r[PreviewLength..] == Ellipsis
    ensures |r| <= PreviewLength + |Ellipsis|
    ensures var n := if |q| < PreviewLength then |q| else PreviewLength;
      n <= |r| && r[..n] == q[..n]
  {
    if |q| > PreviewLength then q[..PreviewLength] + Ellipsis else q
  }

  /** Previewing a preview changes nothing: a cut question has 53
      characters, and cutting it again keeps the same 50 characters and the
      same "...". */
  lemma PreviewIdempotent(q: string)
    ensures QuestionPreview(QuestionPreview(q)) == QuestionPreview(q)
  {
    if |q| > PreviewLength {
      var r := QuestionPreview(q);
      assert r[..PreviewLength] + Ellipsis == r;
    }
  }

  /** Two long questions share a preview exactly when their first 50
      characters agree. */
  lemma LongPreviewsAgreeOnPrefix(p: string, q: string)
    requires |p| > PreviewLength && |q| > PreviewLength
    ensures QuestionPreview(p) == QuestionPreview(q) <==> p[..PreviewLength] == q[..PreviewLength]
  {
    if QuestionPreview(p) == QuestionPreview(q) {
      assert QuestionPreview(p)[..PreviewLength] == p[..PreviewLength];
      assert QuestionPreview(q)[..PreviewLength] == q[..PreviewLength];
    }
  }

  /** The preview leaves a question as it is exactly when the question has at
      most 50 characters, or already has the shape of a preview: 53
      characters ending in "...". */
  lemma PreviewFixedPoints(q: string)
    ensures QuestionPreview(q) == q <==>
      |q| <= PreviewLength || (|q| == PreviewLength + |Ellipsis| && q[PreviewLength..] == Ellipsis)
  {
    if |q| == PreviewLength + |Ellipsis| && q[PreviewLength..] == Ellipsis {
      assert q[..PreviewLength] + q[PreviewLength..] == q;
    }
  }
}
