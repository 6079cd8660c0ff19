/**
 When a catalogue PUT is accepted, column by column, with the retirement guard in terms of who would lose what.
 */
module CatalogGate {
  import opened Options
  import opened Text
  import opened Catalog
  import CatalogMerge
  import Rbac
  import RetirementGuard

  /** Something but white space. */
  predicate HasText(text: string) {
    exists i :: 0 <= i < |text| && !IsSpace(text[i])
  }

  lemma HasTextExactlyWhen(text: string)
    ensures Strip(text) != "" <==> HasText(text)
  {
    var left, right := CatalogMerge.StripTakesOnlySpace(text);
    hide IsSpace, Strip;
    if Strip(text) != "" {
      assert text[|left|] == Strip(text)[0];
    } else {
      assert text == left + right;
    }
  }

  predicate InModule(q: Submission, key: string) { q.pathKey + "." <= key }

  /** The permission is canonical, the module's own, named, and its status is one of the lifecycle. */
  predicate PermissionFits(s: Tables, q: Submission, p: PermissionInput) {
    && IsCanonicalPermission(p.key) && InModule(q, p.key) && HasText(p.name) && p.status != None
    && (p.key in s.permissions ==> s.permissions[p.key].moduleKey == q.pathKey)
  }

  /** Retiring it takes nothing from anybody's tenant roles. */
  ghost predicate RetiresFreely(r: Rbac.Tables, now: Time, p: PermissionInput) {
    p.status == Some(Retired) ==> forall t, u :: !RetirementGuard.WouldObtain(r, t, u, p.key, now)
  }

  /** The submission makes key ACTIVE, or it does not mention it and the module has it stored as ACTIVE. */
  predicate Grantable(s: Tables, q: Submission, key: string) {
    && InModule(q, key)
    && (|| (exists i :: 0 <= i < |q.permissions| && q.permissions[i].key == key
                        && q.permissions[i].status == Some(Active))
        || ((forall i :: 0 <= i < |q.permissions| ==> q.permissions[i].key != key)
            && key in s.permissions && s.permissions[key].moduleKey == q.pathKey
               && s.permissions[key].status == Active))
  }

  predicate TemplateFits(s: Tables, q: Submission, t: TemplateInput) {
    && InModule(q, t.key) && t.status != None
    && (forall i, j :: 0 <= i < j < |t.permissions| ==> t.permissions[i] != t.permissions[j])
    && forall i :: 0 <= i < |t.permissions| ==> Grantable(s, q, t.permissions[i])
  }

  /** A template that is not stored yet gets an id no other template has. */
  predicate IdFits(s: Tables, q: Submission, j: int)
    requires 0 <= j < |q.templates| <= |q.freshIds|
  {
    (q.pathKey, q.templates[j].key) in s.templates
    || ((forall k :: k in s.templates ==> s.templates[k].id != q.freshIds[j])
        && forall i :: 0 <= i < j && (q.pathKey, q.templates[i].key) !in s.templates ==>
             q.freshIds[i] != q.freshIds[j])
  }

  ghost predicate MayPut(s: Tables, q: Submission, r: Rbac.Tables, now: Time)
    requires |q.templates| <= |q.freshIds|
  {
    && q.pathKey != "" && q.moduleKey == q.pathKey && HasText(q.name) && HasText(q.version)
    && (forall i, j :: 0 <= i < j < |q.permissions| ==> q.permissions[i].key != q.permissions[j].key)
    && (forall i :: 0 <= i < |q.permissions| ==>
          PermissionFits(s, q, q.permissions[i]) && RetiresFreely(r, now, q.permissions[i]))
    && (forall i, j :: 0 <= i < j < |q.templates| ==> q.templates[i].key != q.templates[j].key)
    && (forall j :: 0 <= j < |q.templates| ==> TemplateFits(s, q, q.templates[j]) && IdFits(s, q, j))
  }

  lemma PermissionFitsExactlyWhen(s: Tables, q: Submission, r: Rbac.Tables, now: Time, p: PermissionInput)
    ensures PermissionFits(s, q, p) && RetiresFreely(r, now, p) <==>
              PermissionAccepted(q, p) && Owned(s, q, p.key) && Guarded(r, now, p)
  {
    HasTextExactlyWhen(p.name);
    RetirementGuard.GuardAgreesWithRuntime(r, p.key, now);
    hide IsCanonicalPermission, Strip, HasText, RetirementGuard.WouldObtain;
  }

  lemma TemplateFitsExactlyWhen(s: Tables, q: Submission, t: TemplateInput)
    requires DistinctPermissionKeys(q.permissions)
    ensures TemplateFits(s, q, t) <==> TemplateAccepted(s, q, t)
  {
    forall key ensures Grantable(s, q, key) <==> ReferenceAccepted(s, q, key) {
      assert key in SubmittedKeys(q.permissions) <==>
        exists i :: 0 <= i < |q.permissions| && q.permissions[i].key == key;
    }
    hide Grantable, ReferenceAccepted, SubmittedKeys;
    if TemplateFits(s, q, t) {
      forall k | k in t.permissions ensures ReferenceAccepted(s, q, k) {
        var i :| 0 <= i < |t.permissions| && t.permissions[i] == k;
      }
    }
  }

  /** A PUT is accepted exactly when the submission may be stored. */
  lemma PutIsAcceptedExactlyWhen(s: Tables, q: Submission, r: Rbac.Tables, now: Time)
    requires |q.templates| <= |q.freshIds|
    ensures Accepts(s, q, r, now) <==> MayPut(s, q, r, now)
  {
    HasTextExactlyWhen(q.name);
    HasTextExactlyWhen(q.version);
    forall i | 0 <= i < |q.permissions|
      ensures PermissionFits(s, q, q.permissions[i]) && RetiresFreely(r, now, q.permissions[i]) <==>
                && PermissionAccepted(q, q.permissions[i]) && Owned(s, q, q.permissions[i].key)
                && Guarded(r, now, q.permissions[i])
    {
      PermissionFitsExactlyWhen(s, q, r, now, q.permissions[i]);
    }
    if DistinctPermissionKeys(q.permissions) {
      forall j | 0 <= j < |q.templates|
        ensures TemplateFits(s, q, q.templates[j]) <==> TemplateAccepted(s, q, q.templates[j])
      {
        TemplateFitsExactlyWhen(s, q, q.templates[j]);
      }
    }
    forall j | 0 <= j < |q.templates| ensures IdFits(s, q, j) <==> FreshFor(s, q, j) {}
    hide PermissionFits, RetiresFreely, PermissionAccepted, Owned, Guarded, TemplateFits, TemplateAccepted, IdFits;
    hide FreshFor, Strip, HasText;
  }
}
